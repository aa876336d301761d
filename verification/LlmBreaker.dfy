/**
 * The circuit breaker in front of the language model (backend/src/realityIndex/llmBreaker.js), and the gate that
 * consults it (backend/src/realityIndex/llmQueue.js, callJson).
 */
module LlmBreaker {
  import DailyCap

  /** What the outcome of one call means to the breaker; `at` is the clock when it is recorded. */
  datatype Event = Success | Hard(at: int) | Transient

  datatype Rec = Rec(fails: nat, openUntil: int, open: bool)

  const Untouched := Rec(0, 0, false)

  datatype Config = Config(threshold: int, cooldownMs: int)

  function Step(c: Config, r: Rec, e: Event): Rec {
    match e
    case Success => Untouched
    case Transient => r
    case Hard(at) =>
      var r := r.(fails := r.fails + 1);
      if r.open then r.(openUntil := at + c.cooldownMs)
      else if r.fails >= c.threshold then r.(open := true, openUntil := at + c.cooldownMs)
      else r
  }

  function After(c: Config, h: seq<Event>): Rec {
    if h == [] then Untouched else Step(c, After(c, h[..|h| - 1]), h[|h| - 1])
  }

  // ---- what the record means, in terms of the history alone -----------------------------------

  ghost predicate NoSuccessFrom(h: seq<Event>, i: nat) {
    forall j :: i <= j < |h| ==> !h[j].Success?
  }

  /** The hard failures with no success after them. */
  ghost function Streak(h: seq<Event>): set<nat> {
    set i: nat | i < |h| && h[i].Hard? && NoSuccessFrom(h, i)
  }

  function AtLeastOne(threshold: int): int {
    if threshold < 1 then 1 else threshold
  }

  ghost predicate IsLast(s: set<nat>, i: nat) {
    i in s && forall j :: j in s ==> j <= i
  }

  /** The streak is long enough, and the cooldown after its last failure has not passed at `now`. */
  ghost predicate Blocks(c: Config, h: seq<Event>, now: int) {
    && |Streak(h)| >= AtLeastOne(c.threshold)
    && exists i: nat :: IsLast(Streak(h), i) && now < h[i].at + c.cooldownMs
  }

  lemma StreakGrows(h: seq<Event>, e: Event)
    ensures var s := Streak(h + [e]);
            match e
            case Success => s == {}
            case Transient => s == Streak(h)
            case Hard(_) => s == Streak(h) + {|h|}
  {
    var g := h + [e];
    forall i: nat | i < |h|
      ensures NoSuccessFrom(g, i) <==> NoSuccessFrom(h, i) && !e.Success?
    {
      assert forall j :: 0 <= j < |h| ==> g[j] == h[j];
      assert g[|h|] == e;
    }
    assert !e.Success? ==> NoSuccessFrom(g, |h|);
  }

  /** The record says what the history says. */
  ghost predicate RecordOk(c: Config, h: seq<Event>, r: Rec) {
    && r.fails == |Streak(h)|
    && (r.open <==> |Streak(h)| >= AtLeastOne(c.threshold))
    && (r.open ==> exists i: nat :: IsLast(Streak(h), i) && r.openUntil == h[i].at + c.cooldownMs)
    && (!r.open ==> r.openUntil == 0)
  }

  /**
   * After any history: the counter is the length of the streak, the breaker is open exactly when that reaches the
   * threshold (taken as at least one), and it is then open until the cooldown after the last hard failure.
   */
  lemma {:induction false} RecordIsHistory(c: Config, h: seq<Event>)
    ensures RecordOk(c, h, After(c, h))
  {
    if h == [] {
      assert Streak(h) == {};
    } else {
      var n := |h| - 1;
      RecordIsHistory(c, h[..n]);
      assert h == h[..n] + [h[n]];
      RecordOfNext(c, h[..n], h[n]);
    }
  }

  lemma RecordOfNext(c: Config, h: seq<Event>, e: Event)
    requires RecordOk(c, h, After(c, h))
    ensures RecordOk(c, h + [e], After(c, h + [e]))
  {
    var g, r := h + [e], After(c, h);
    HistoryStep(c, h, e);
    StreakGrows(h, e);
    match e
    case Success =>
    case Transient =>
      if r.open {
        var i: nat :| IsLast(Streak(h), i) && r.openUntil == h[i].at + c.cooldownMs;
        assert IsLast(Streak(g), i) && g[i] == h[i];
      }
    case Hard(at) =>
      assert |h| !in Streak(h);
      assert IsLast(Streak(g), |h|) && g[|h|] == e;
  }

  lemma BlocksIsOpen(c: Config, h: seq<Event>, now: int)
    ensures Blocks(c, h, now) <==> After(c, h).open && now < After(c, h).openUntil
  {
    RecordIsHistory(c, h);
    forall i: nat, j: nat | IsLast(Streak(h), i) && IsLast(Streak(h), j)
      ensures i == j
    {
    }
  }

  lemma HistoryStep(c: Config, h: seq<Event>, e: Event)
    ensures After(c, h + [e]) == Step(c, After(c, h), e)
  {
    assert (h + [e])[..|h|] == h;
  }

  // ---- the breaker ----------------------------------------------------------------------------

  class Breaker {
    const config: Config
    var state: map<string, Rec>
    ghost var history: map<string, seq<Event>>

    ghost function HistoryOf(p: string): seq<Event>
      reads this
    {
      if p in history then history[p] else []
    }

    /** Every provider's record is what its own history makes it. */
    ghost predicate Valid()
      reads this
    {
      forall p :: (if p in state then state[p] else Untouched) == After(config, HistoryOf(p))
    }

    constructor (config: Config)
      ensures Valid() && this.config == config && history == map[]
    {
      this.config := config;
      state, history := map[], map[];
    }

    method Get(p: string) returns (r: Rec)
      requires Valid()
      modifies this`state
      ensures Valid() && r == After(config, HistoryOf(p)) && p in state
    {
      if p !in state {
        state := state[p := Untouched];
      }
      r := state[p];
    }

    method IsOpen(p: string, now: int) returns (open: bool)
      requires Valid()
      modifies this`state
      ensures Valid()
      ensures open <==> Blocks(config, HistoryOf(p), now)
    {
      var r := Get(p);
      BlocksIsOpen(config, HistoryOf(p), now);
      open := r.open && now < r.openUntil;
    }

    method RecordSuccess(p: string)
      requires Valid()
      modifies this
      ensures Valid() && history == old(history)[p := old(HistoryOf(p)) + [Success]]
    {
      var r := Get(p);
      HistoryStep(config, HistoryOf(p), Success);
      state := state[p := Rec(0, 0, false)];
      history := history[p := HistoryOf(p) + [Success]];
    }

    method RecordHardFailure(p: string, now: int)
      requires Valid()
      modifies this
      ensures Valid() && history == old(history)[p := old(HistoryOf(p)) + [Hard(now)]]
    {
      var r := Get(p);
      HistoryStep(config, HistoryOf(p), Hard(now));
      r := r.(fails := r.fails + 1);
      if r.open {
        r := r.(openUntil := now + config.cooldownMs);
      } else if r.fails >= config.threshold {
        r := r.(open := true, openUntil := now + config.cooldownMs);
      }
      state := state[p := r];
      history := history[p := HistoryOf(p) + [Hard(now)]];
    }
  }

  // ---- the gate -------------------------------------------------------------------------------

  const Anthropic := "anthropic"

  datatype Outcome = Fine | HardFailure | OtherFailure | Unconfigured

  class Caller {
    const available: bool
    const breaker: Breaker
    /** The count of generation calls, day by day. */
    const counter: DailyCap.Counter
    /** The calls handed to the pump, oldest first. */
    var queue: seq<string>

    constructor (available: bool, breaker: Breaker, counter: DailyCap.Counter)
      ensures this.available == available && this.breaker == breaker && this.counter == counter && queue == []
    {
      this.available, this.breaker, this.counter := available, breaker, counter;
      queue := [];
    }

    /**
     * A call is queued, and paid for, exactly when nothing stands in its way; a refused call leaves no trace. The
     * breaker reads the clock at `now`, and the budget reads the UTC day after it.
     */
    method CallJson(task: string, now: int, day: int) returns (queued: bool)
      requires breaker.Valid()
      modifies this, breaker`state, counter`rows
      ensures breaker.Valid()
      ensures queued <==>
                && available && !Blocks(breaker.config, breaker.HistoryOf(Anthropic), now)
                && DailyCap.Total(old(counter.rows), day) < counter.cap
      ensures queue == old(queue) + if queued then [task] else []
      ensures counter.rows == if queued then DailyCap.Upsert(old(counter.rows), day, task) else old(counter.rows)
      ensures forall d :: DailyCap.Total(counter.rows, d) ==
                          DailyCap.Total(old(counter.rows), d) + if queued && d == day then 1 else 0
    {
      if !available {
        return false;
      }
      var open := breaker.IsOpen(Anthropic, now);
      if open {
        return false;
      }
      queued := counter.ConsumeLlmBudget(day, task);
      if queued {
        queue := queue + [task];
      }
    }

    /** What a finished call reports. Transient failures leave the breaker exactly as it was. */
    method Settled(o: Outcome, now: int)
      requires breaker.Valid()
      modifies breaker
      ensures breaker.Valid()
      ensures breaker.history ==
                if o.Fine? then old(breaker.history)[Anthropic := old(breaker.HistoryOf(Anthropic)) + [Success]]
                else if o.HardFailure?
                then old(breaker.history)[Anthropic := old(breaker.HistoryOf(Anthropic)) + [Hard(now)]]
                else old(breaker.history)
    {
      if o.Fine? {
        breaker.RecordSuccess(Anthropic);
      } else if o.HardFailure? {
        breaker.RecordHardFailure(Anthropic, now);
      }
    }
  }

  // ---- what the gate promises over whole runs -------------------------------------------------

  /** From the failure that completes a streak until the cooldown is over, no call passes, whatever transients say. */
  lemma {:induction false} ClosedForTheCooldown(c: Config, h: seq<Event>, at: int, noise: seq<Event>, now: int)
    requires |Streak(h)| + 1 >= AtLeastOne(c.threshold)
    requires forall k :: 0 <= k < |noise| ==> noise[k] == Transient
    ensures Blocks(c, h + [Hard(at)] + noise, now) <==> now < at + c.cooldownMs
  {
    var g := h + [Hard(at)];
    if noise == [] {
      assert g + noise == g;
      StreakGrows(h, Hard(at));
      assert |h| !in Streak(h);
      assert IsLast(Streak(g), |h|);
      RecordIsHistory(c, h);
      HistoryStep(c, h, Hard(at));
    } else {
      var n := |noise| - 1;
      ClosedForTheCooldown(c, h, at, noise[..n], now);
      assert g + noise == g + noise[..n] + [noise[n]];
      HistoryStep(c, g + noise[..n], Transient);
      BlocksIsOpen(c, g + noise[..n], now);
    }
    BlocksIsOpen(c, g + noise, now);
  }

  /**
   * One success opens the gate at once, and it stays open for as long as fewer hard failures follow than the
   * threshold.
   */
  lemma {:induction false} SuccessReopens(c: Config, h: seq<Event>, tail: seq<Event>, now: int)
    requires |tail| < AtLeastOne(c.threshold) && forall k :: 0 <= k < |tail| ==> !tail[k].Success?
    ensures !Blocks(c, h + [Success] + tail, now) && |Streak(h + [Success] + tail)| <= |tail|
  {
    var g := h + [Success];
    if tail == [] {
      assert g + tail == g;
      StreakGrows(h, Success);
    } else {
      var n := |tail| - 1;
      SuccessReopens(c, h, tail[..n], now);
      assert g + tail == g + tail[..n] + [tail[n]];
      StreakGrows(g + tail[..n], tail[n]);
    }
  }

  /** How many more calls of the day the cap admits. */
  function Left(cap: int, rows: seq<DailyCap.Row>, day: int): nat {
    if DailyCap.Total(rows, day) < cap then cap - DailyCap.Total(rows, day) else 0
  }

  /** Fewer calls than the cap admits were made before the k-th on its own day. */
  predicate Admits(cap: int, rows: seq<DailyCap.Row>, days: seq<int>, k: nat)
    requires k < |days|
  {
    multiset(days[..k])[days[k]] < Left(cap, rows, days[k])
  }

  /** The calls let through. */
  function Passing(cap: int, rows: seq<DailyCap.Row>, tasks: seq<string>, days: seq<int>): seq<string>
    requires |tasks| == |days|
  {
    if days == [] then []
    else
      var n := |days| - 1;
      Passing(cap, rows, tasks[..n], days[..n]) + if Admits(cap, rows, days, n) then [tasks[n]] else []
  }

  /** Of the calls made on a day, those that the cap still admits. */
  function Admitted(cap: int, rows: seq<DailyCap.Row>, days: seq<int>, d: int): nat {
    if multiset(days)[d] <= Left(cap, rows, d) then multiset(days)[d] else Left(cap, rows, d)
  }

  /** Of any two calls, one falls on a day with no call left, or both on a day with one. */
  ghost predicate RoomForOne(cap: int, rows: seq<DailyCap.Row>, days: seq<int>) {
    forall i, j :: 0 <= i < j < |days| ==>
      || Left(cap, rows, days[i]) == 0 || Left(cap, rows, days[j]) == 0
      || (days[i] == days[j] && Left(cap, rows, days[i]) == 1)
  }

  lemma DaysGrow(days: seq<int>, n: nat)
    requires n < |days|
    ensures multiset(days[..n + 1]) == multiset(days[..n]) + multiset{days[n]}
  {
    assert days[..n + 1] == days[..n] + [days[n]];
  }

  lemma NoCalls(cap: int, rows: seq<DailyCap.Row>)
    ensures Passing(cap, rows, [], []) == [] && forall d :: Admitted(cap, rows, [], d) == 0
  {
  }

  lemma OneMoreCall(cap: int, rows: seq<DailyCap.Row>, tasks: seq<string>, days: seq<int>, k: nat)
    requires |tasks| == |days| && k < |days|
    ensures Admits(cap, rows, days, k) <==>
              DailyCap.Total(rows, days[k]) + Admitted(cap, rows, days[..k], days[k]) < cap
    ensures Passing(cap, rows, tasks[..k + 1], days[..k + 1]) ==
              Passing(cap, rows, tasks[..k], days[..k]) + if Admits(cap, rows, days, k) then [tasks[k]] else []
    ensures forall d :: Admitted(cap, rows, days[..k + 1], d) ==
                        Admitted(cap, rows, days[..k], d) + if Admits(cap, rows, days, k) && d == days[k] then 1 else 0
  {
    DaysGrow(days, k);
    assert days[..k + 1][..k] == days[..k] && tasks[..k + 1][..k] == tasks[..k];
  }

  lemma {:induction false} PassingAtLeast(
    cap: int, rows: seq<DailyCap.Row>, tasks: seq<string>, days: seq<int>, d: int, e: int)
    requires |tasks| == |days| && d != e
    ensures |Passing(cap, rows, tasks, days)| >= Admitted(cap, rows, days, d) + Admitted(cap, rows, days, e)
  {
    if days != [] {
      var n := |days| - 1;
      PassingAtLeast(cap, rows, tasks[..n], days[..n], d, e);
      DaysGrow(days, n);
      assert days[..n + 1] == days;
    }
  }

  lemma {:induction false} NonePasses(cap: int, rows: seq<DailyCap.Row>, tasks: seq<string>, days: seq<int>)
    requires |tasks| == |days| && forall k :: 0 <= k < |days| ==> Left(cap, rows, days[k]) == 0
    ensures Passing(cap, rows, tasks, days) == []
  {
    if days != [] {
      NonePasses(cap, rows, tasks[..|days| - 1], days[..|days| - 1]);
    }
  }

  lemma {:induction false} AtMostOnePasses(cap: int, rows: seq<DailyCap.Row>, tasks: seq<string>, days: seq<int>)
    requires |tasks| == |days| && RoomForOne(cap, rows, days)
    ensures |Passing(cap, rows, tasks, days)| <= 1
  {
    if days != [] {
      var n := |days| - 1;
      AtMostOnePasses(cap, rows, tasks[..n], days[..n]);
      if Admits(cap, rows, days, n) {
        forall i | 0 <= i < n
          ensures Left(cap, rows, days[..n][i]) == 0
        {
          assert days[i] in days[..n];
        }
        NonePasses(cap, rows, tasks[..n], days[..n]);
      }
    }
  }

  /** At most one of the calls passes exactly when there is room for one only. */
  lemma OnePassesIff(cap: int, rows: seq<DailyCap.Row>, tasks: seq<string>, days: seq<int>)
    requires |tasks| == |days|
    ensures |Passing(cap, rows, tasks, days)| <= 1 <==> RoomForOne(cap, rows, days)
  {
    if RoomForOne(cap, rows, days) {
      AtMostOnePasses(cap, rows, tasks, days);
    } else {
      var i, j :| 0 <= i < j < |days| && Left(cap, rows, days[i]) != 0 && Left(cap, rows, days[j]) != 0
                  && !(days[i] == days[j] && Left(cap, rows, days[i]) == 1);
      assert days == days[..j] + [days[j]] + days[j + 1..];
      assert days[i] in days[..j];
      PassingAtLeast(cap, rows, tasks, days, days[i], if days[i] == days[j] then days[i] + 1 else days[j]);
    }
  }

  /**
   * The header says that after the cooldown one probe is allowed. From the failure that completed a streak until an
   * outcome is recorded, exactly those of the calls made after the cooldown pass that the cap of their day admits. So
   * at most one passes exactly when no two of them fall on days with room for both.
   */
  method ProbesPass(
    caller: Caller, ghost h: seq<Event>, at: int, tasks: seq<string>, times: seq<int>, days: seq<int>)
    returns (passed: nat)
    requires caller.breaker.Valid() && caller.available && |tasks| == |times| == |days|
    requires caller.breaker.HistoryOf(Anthropic) == h + [Hard(at)]
    requires |Streak(h)| + 1 >= AtLeastOne(caller.breaker.config.threshold)
    requires forall k :: 0 <= k < |times| ==> at + caller.breaker.config.cooldownMs <= times[k]
    modifies caller, caller.breaker`state, caller.counter`rows
    ensures var through := Passing(caller.counter.cap, old(caller.counter.rows), tasks, days);
            caller.queue == old(caller.queue) + through && passed == |through|
    ensures forall d :: DailyCap.Total(caller.counter.rows, d) ==
                        DailyCap.Total(old(caller.counter.rows), d)
                        + Admitted(caller.counter.cap, old(caller.counter.rows), days, d)
    ensures passed <= 1 <==> RoomForOne(caller.counter.cap, old(caller.counter.rows), days)
  {
    hide Streak, Blocks, RoomForOne, Passing, Admits, Admitted, Left;
    NoCalls(caller.counter.cap, caller.counter.rows);
    ghost var cap, rows := caller.counter.cap, caller.counter.rows;
    passed := 0;
    for k := 0 to |tasks|
      invariant caller.breaker.Valid() && passed == |Passing(cap, rows, tasks[..k], days[..k])|
      invariant caller.queue == old(caller.queue) + Passing(cap, rows, tasks[..k], days[..k])
      invariant forall d :: DailyCap.Total(caller.counter.rows, d) ==
                            DailyCap.Total(rows, d) + Admitted(cap, rows, days[..k], d)
    {
      assert h + [Hard(at)] + [] == h + [Hard(at)];
      ClosedForTheCooldown(caller.breaker.config, h, at, [], times[k]);
      var queued := caller.CallJson(tasks[k], times[k], days[k]);
      OneMoreCall(cap, rows, tasks, days, k);
      if queued {
        passed := passed + 1;
      }
    }
    assert tasks[..|tasks|] == tasks && days[..|days|] == days;
    OnePassesIff(cap, rows, tasks, days);
  }

  /** Two calls on the two sides of midnight both pass, though each day had room for only one. */
  method ProbesAtMidnight(
    caller: Caller, ghost h: seq<Event>, at: int, tasks: seq<string>, times: seq<int>, day: int)
    returns (passed: nat)
    requires caller.breaker.Valid() && caller.available && |tasks| == |times| == 2
    requires caller.breaker.HistoryOf(Anthropic) == h + [Hard(at)]
    requires |Streak(h)| + 1 >= AtLeastOne(caller.breaker.config.threshold)
    requires forall k :: 0 <= k < |times| ==> at + caller.breaker.config.cooldownMs <= times[k]
    requires Left(caller.counter.cap, caller.counter.rows, day) == 1
    requires Left(caller.counter.cap, caller.counter.rows, day + 1) == 1
    modifies caller, caller.breaker`state, caller.counter`rows
    ensures passed == 2 && caller.queue == old(caller.queue) + tasks
  {
    hide Streak, Blocks, RoomForOne;
    passed := ProbesPass(caller, h, at, tasks, times, [day, day + 1]);
    assert [day, day + 1][..1] == [day];
    assert tasks == tasks[..1] + [tasks[1]];
    assert Passing(caller.counter.cap, old(caller.counter.rows), tasks[..1], [day]) == tasks[..1];
  }
}
