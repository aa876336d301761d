/**
 * The daily ceiling on generation calls (backend/src/realityIndex/llmQueue.js, consumeLlmBudget). Reading the day's
 * sum and adding to it are two statements, and several processes share the table, so between the two anything may
 * happen elsewhere. Database errors, on which the code lets the call through, are not part of the model.
 */
module DailyCap {
  import opened Common

  /** A row of llm_daily_calls; (day, task) is its primary key. */
  datatype Row = Row(day: int, task: string, calls: nat)

  /** SELECT SUM(calls) for a day. */
  function Total(rows: seq<Row>, day: int): nat {
    if rows == [] then 0
    else (if rows[0].day == day then rows[0].calls else 0) + Total(rows[1..], day)
  }

  /** INSERT ... ON CONFLICT (day, task) DO UPDATE SET calls = calls + 1. */
  function Upsert(rows: seq<Row>, day: int, task: string): seq<Row> {
    if rows == [] then [Row(day, task, 1)]
    else if rows[0].day == day && rows[0].task == task then [rows[0].(calls := rows[0].calls + 1)] + rows[1..]
    else [rows[0]] + Upsert(rows[1..], day, task)
  }

  lemma {:induction false} UpsertCountsOne(rows: seq<Row>, day: int, task: string, d: int)
    ensures Total(Upsert(rows, day, task), d) == Total(rows, d) + if d == day then 1 else 0
  {
    if rows != [] {
      UpsertCountsOne(rows[1..], day, task, d);
    }
  }

  ghost predicate HasRow(rows: seq<Row>, day: int, task: string) {
    exists r :: r in rows && r.day == day && r.task == task
  }

  /** No two rows are of one day and task. */
  ghost predicate OneRowEach(rows: seq<Row>) {
    rows == [] || (!HasRow(rows[1..], rows[0].day, rows[0].task) && OneRowEach(rows[1..]))
  }

  /** The count in the row of a day and a task, and 0 when there is none. */
  function CallsOf(rows: seq<Row>, day: int, task: string): nat {
    if rows == [] then 0
    else if rows[0].day == day && rows[0].task == task then rows[0].calls
    else CallsOf(rows[1..], day, task)
  }

  /** The key stays a key: only the row of that day and task is new, or one higher. */
  lemma {:induction false} UpsertKeepsKey(rows: seq<Row>, day: int, task: string, d: int, t: string)
    requires OneRowEach(rows)
    ensures OneRowEach(Upsert(rows, day, task))
    ensures HasRow(Upsert(rows, day, task), d, t) <==> HasRow(rows, d, t) || (d == day && t == task)
    ensures CallsOf(Upsert(rows, day, task), d, t) == CallsOf(rows, d, t) + if d == day && t == task then 1 else 0
  {
    if rows != [] && !(rows[0].day == day && rows[0].task == task) {
      UpsertKeepsKey(rows[1..], day, task, d, t);
      UpsertKeepsKey(rows[1..], day, task, rows[0].day, rows[0].task);
      KeyOfHead(rows[0], rows[1..], d, t);
      KeyOfHead(rows[0], Upsert(rows[1..], day, task), d, t);
      assert rows == [rows[0]] + rows[1..];
      hide HasRow;
    } else if rows != [] {
      KeyOfHead(rows[0], rows[1..], d, t);
      KeyOfHead(rows[0].(calls := rows[0].calls + 1), rows[1..], d, t);
      assert rows == [rows[0]] + rows[1..];
      hide HasRow;
    }
  }

  lemma KeyOfHead(r: Row, rest: seq<Row>, d: int, t: string)
    ensures HasRow([r] + rest, d, t) <==> (r.day == d && r.task == t) || HasRow(rest, d, t)
  {
    forall x
      ensures x in [r] + rest <==> x == r || x in rest
    {
    }
  }

  class Counter {
    const cap: int
    var rows: seq<Row>

    constructor (cap: int)
      ensures this.cap == cap && rows == []
    {
      this.cap := cap;
      rows := [];
    }

    method UnderCap(day: int) returns (ok: bool)
      ensures ok <==> Total(rows, day) < cap
    {
      ok := Total(rows, day) < cap;
    }

    method Record(day: int, task: string)
      modifies this`rows
      ensures rows == Upsert(old(rows), day, task)
      ensures forall d :: Total(rows, d) == Total(old(rows), d) + if d == day then 1 else 0
    {
      forall d
        ensures Total(Upsert(rows, day, task), d) == Total(rows, d) + if d == day then 1 else 0
      {
        UpsertCountsOne(rows, day, task, d);
      }
      rows := Upsert(rows, day, task);
    }

    /**
     * With nobody in between: the call goes through, and is counted, exactly while the day's total is under the cap.
     */
    method ConsumeLlmBudget(day: int, task: string) returns (ok: bool)
      modifies this`rows
      ensures ok <==> Total(old(rows), day) < cap
      ensures !ok ==> rows == old(rows)
      ensures ok ==> rows == Upsert(old(rows), day, task) && Total(rows, day) == Total(old(rows), day) + 1 <= cap
      ensures forall d :: d != day ==> Total(rows, d) == Total(old(rows), d)
    {
      ok := UnderCap(day);
      if ok {
        Record(day, task);
      }
    }
  }

  // ---- several processes ----------------------------------------------------------------------

  /** Each process is at rest, or has passed the check for a day and not yet written. */
  datatype World = World(rows: seq<Row>, passed: seq<Option<int>>)

  datatype Step =
    | Check(p: nat, day: int)
    | Write(p: nat, task: string)
    | Crash(p: nat)

  /** One step; a step that the process is not ready for does nothing. */
  function Apply(cap: int, w: World, s: Step): World {
    if s.p >= |w.passed| then w
    else
      match s
      case Check(p, day) =>
        if w.passed[p].None? && Total(w.rows, day) < cap then w.(passed := w.passed[p := Some(day)]) else w
      case Write(p, task) =>
        if w.passed[p].Some? then World(Upsert(w.rows, w.passed[p].value, task), w.passed[p := None]) else w
      case Crash(p) => w.(passed := w.passed[p := None])
  }

  /** A check lets a process at rest pass exactly while the day is under the cap; a write counts what passed, once. */
  lemma ApplyMeans(cap: int, w: World, p: nat, day: int, task: string, d: int)
    requires p < |w.passed|
    ensures var w' := Apply(cap, w, Check(p, day));
            && w'.rows == w.rows
            && w'.passed ==
                 if w.passed[p] == None && Total(w.rows, day) < cap then w.passed[p := Some(day)] else w.passed
    ensures var w' := Apply(cap, w, Write(p, task));
            && w'.passed == w.passed[p := None]
            && Total(w'.rows, d) == Total(w.rows, d) + if w.passed[p] == Some(d) then 1 else 0
    ensures Apply(cap, w, Crash(p)) == World(w.rows, w.passed[p := None])
  {
    if w.passed[p].Some? {
      UpsertCountsOne(w.rows, w.passed[p].value, task, d);
    } else {
      assert w.passed[p := None] == w.passed;
    }
  }

  function Run(cap: int, w: World, steps: seq<Step>): World
    decreases |steps|
  {
    if steps == [] then w else Run(cap, Apply(cap, w, steps[0]), steps[1..])
  }

  function AtRest(processes: nat): seq<Option<int>> {
    seq(processes, _ => None)
  }

  function Start(processes: nat): World {
    World([], AtRest(processes))
  }

  /** How many processes are between check and write for the day. */
  function Waiting(passed: seq<Option<int>>, day: int): (n: nat)
    ensures n <= |passed|
  {
    if passed == [] then 0 else (if passed[0] == Some(day) then 1 else 0) + Waiting(passed[1..], day)
  }

  lemma {:induction false} WaitingAt(passed: seq<Option<int>>, p: nat, v: Option<int>, day: int)
    requires p < |passed|
    ensures Waiting(passed[p := v], day) + (if passed[p] == Some(day) then 1 else 0)
         == Waiting(passed, day) + (if v == Some(day) then 1 else 0)
    ensures passed[p] != Some(day) ==> Waiting(passed, day) < |passed|
  {
    if p == 0 {
      assert passed[p := v] == [v] + passed[1..];
    } else {
      assert passed[p := v] == [passed[0]] + passed[1..][p - 1 := v];
      WaitingAt(passed[1..], p - 1, v, day);
    }
  }

  /** What is counted together with what may yet be. */
  ghost predicate Bounded(cap: int, w: World, processes: nat, day: int) {
    && |w.passed| == processes
    && (if cap > 0 then Total(w.rows, day) + Waiting(w.passed, day) <= cap + processes - 1
        else Total(w.rows, day) == 0 && Waiting(w.passed, day) == 0)
  }

  lemma StepIsBounded(cap: int, w: World, s: Step, processes: nat, day: int)
    requires processes > 0 && Bounded(cap, w, processes, day)
    ensures Bounded(cap, Apply(cap, w, s), processes, day)
  {
    if s.p < processes {
      match s
      case Check(p, d) => WaitingAt(w.passed, p, Some(d), day);
      case Write(p, task) =>
        if w.passed[p].Some? {
          WaitingAt(w.passed, p, None, day);
          UpsertCountsOne(w.rows, w.passed[p].value, task, day);
        }
      case Crash(p) => WaitingAt(w.passed, p, None, day);
    }
  }

  lemma {:induction false} RunIsBounded(cap: int, w: World, steps: seq<Step>, processes: nat, day: int)
    requires processes > 0 && Bounded(cap, w, processes, day)
    ensures Bounded(cap, Run(cap, w, steps), processes, day)
    decreases |steps|
  {
    if steps != [] {
      StepIsBounded(cap, w, steps[0], processes, day);
      RunIsBounded(cap, Apply(cap, w, steps[0]), steps[1..], processes, day);
    }
  }

  lemma {:induction false} NobodyWaits(processes: nat, day: int)
    ensures Waiting(AtRest(processes), day) == 0
  {
    if processes > 0 {
      assert AtRest(processes)[1..] == AtRest(processes - 1);
      NobodyWaits(processes - 1, day);
    }
  }

  /** Whatever the interleaving, crashes and change of day, the overshoot is less than the number of processes. */
  lemma OvershootIsSmall(cap: int, processes: nat, steps: seq<Step>, day: int)
    requires processes > 0
    ensures var total := Total(Run(cap, Start(processes), steps).rows, day);
            if cap > 0 then total <= cap + processes - 1 else total == 0
  {
    NobodyWaits(processes, day);
    RunIsBounded(cap, Start(processes), steps, processes, day);
  }

  // ---- the overshoot really happens -----------------------------------------------------------

  lemma {:induction false} RunConcat(cap: int, w: World, a: seq<Step>, b: seq<Step>)
    ensures Run(cap, w, a + b) == Run(cap, Run(cap, w, a), b)
    decreases |a|
  {
    if a == [] {
      assert a + b == b;
    } else {
      assert (a + b)[0] == a[0] && (a + b)[1..] == a[1..] + b;
      RunConcat(cap, Apply(cap, w, a[0]), a[1..], b);
    }
  }

  /** The first `k` of the processes have passed the check for day 0. */
  function Passed(processes: nat, k: nat): seq<Option<int>> {
    seq(processes, p => if p < k then Some(0) else None)
  }

  /** One process calls alone until the total is one short of the cap. */
  lemma {:induction false} Alone(cap: int, processes: nat, k: nat) returns (steps: seq<Step>)
    requires processes > 0 && k < cap
    ensures var w := Run(cap, Start(processes), steps); w.passed == Passed(processes, 0) && Total(w.rows, 0) == k
  {
    steps := [];
    if k == 0 {
      assert AtRest(processes) == Passed(processes, 0);
    } else {
      var before := Alone(cap, processes, k - 1);
      var w := Run(cap, Start(processes), before);
      var more := [Check(0, 0), Write(0, "")];
      steps := before + more;
      RunConcat(cap, Start(processes), before, more);
      var w1 := Apply(cap, w, more[0]);
      assert w1 == World(w.rows, w.passed[0 := Some(0)]);
      var w2 := Apply(cap, w1, more[1]);
      UpsertCountsOne(w.rows, 0, "", 0);
      assert w2.passed == Passed(processes, 0);
      assert more[1..] == [more[1]];
      assert Run(cap, w2, []) == w2;
      assert Run(cap, w1, [more[1]]) == w2;
    }
  }

  /** Then they all check, before any of them writes. */
  lemma {:induction false} AllCheck(cap: int, processes: nat, k: nat) returns (steps: seq<Step>)
    requires k <= processes && 0 < processes && 0 < cap
    ensures var w := Run(cap, Start(processes), steps); w.passed == Passed(processes, k) && Total(w.rows, 0) == cap - 1
  {
    if k == 0 {
      steps := Alone(cap, processes, cap - 1);
    } else {
      var before := AllCheck(cap, processes, k - 1);
      var w := Run(cap, Start(processes), before);
      steps := before + [Check(k - 1, 0)];
      RunConcat(cap, Start(processes), before, [Check(k - 1, 0)]);
      var w' := Apply(cap, w, Check(k - 1, 0));
      assert w'.passed == Passed(processes, k);
      assert Run(cap, w', []) == w';
    }
  }

  /** Then they all write, the last first. */
  lemma {:induction false} AllWrite(cap: int, processes: nat, k: nat) returns (steps: seq<Step>)
    requires k <= processes && 0 < processes && 0 < cap
    ensures var w := Run(cap, Start(processes), steps);
            w.passed == Passed(processes, k) && Total(w.rows, 0) == cap - 1 + processes - k
    decreases processes - k
  {
    if k == processes {
      steps := AllCheck(cap, processes, processes);
    } else {
      var before := AllWrite(cap, processes, k + 1);
      var w := Run(cap, Start(processes), before);
      steps := before + [Write(k, "")];
      RunConcat(cap, Start(processes), before, [Write(k, "")]);
      var w' := Apply(cap, w, Write(k, ""));
      UpsertCountsOne(w.rows, 0, "", 0);
      assert w'.passed == Passed(processes, k);
      assert Run(cap, w', []) == w';
    }
  }

  ghost predicate CapHolds(cap: int, processes: nat) {
    forall steps: seq<Step>, day :: Total(Run(cap, Start(processes), steps).rows, day) <= (if cap > 0 then cap else 0)
  }

  /** The comment calls the cap a hard ceiling. It is one exactly when a single process makes calls, or none may. */
  lemma HardCeilingIff(cap: int, processes: nat)
    requires processes > 0
    ensures CapHolds(cap, processes) <==> processes == 1 || cap <= 0
  {
    if processes == 1 || cap <= 0 {
      forall steps: seq<Step>, day
        ensures Total(Run(cap, Start(processes), steps).rows, day) <= if cap > 0 then cap else 0
      {
        OvershootIsSmall(cap, processes, steps, day);
      }
    } else {
      var steps := AllWrite(cap, processes, 0);
      assert Total(Run(cap, Start(processes), steps).rows, 0) == cap - 1 + processes;
    }
  }
}
