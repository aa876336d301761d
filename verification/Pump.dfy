/**
 * The serial queue in front of the language model (backend/src/realityIndex/llmQueue.js, pump and enqueue). JavaScript
 * runs without interruption from one await to the next, so each method below is one such stretch: a call arriving,
 * the limiter's pause ending, the running call finishing. They may follow one another in any order.
 */
module Pump {
  import opened Common
  import opened StableSort

  /** `no` numbers the arrivals and stands for the identity of the call's promise. */
  datatype Task = Task(prio: nat, enqueuedAt: int, no: nat)

  /** A promise kept (`ok`) or rejected. */
  datatype Settled = Settled(task: Task, ok: bool)

  function PrioOf(priority: string): nat {
    if priority == "high" then 0 else if priority == "low" then 2 else 1
  }

  /** The comparator of the sort. */
  predicate Le(a: Task, b: Task) {
    a.prio < b.prio || (a.prio == b.prio && a.enqueuedAt <= b.enqueuedAt)
  }

  /** The order the queue promises: priority, then the time of arrival, then the order of arrival. */
  predicate NotAfter(a: Task, b: Task) {
    Le(a, b) && (Le(b, a) ==> a.no <= b.no)
  }

  /** Tasks the comparator cannot tell apart stand in the order of their arrival. */
  ghost predicate TiesInOrder(q: seq<Task>) {
    forall i, j :: 0 <= i < j < |q| && Le(q[i], q[j]) && Le(q[j], q[i]) ==> q[i].no <= q[j].no
  }

  lemma {:induction false} InsertKeepsOrder(x: Task, s: seq<Task>)
    requires Sorted(NotAfter, s)
    requires forall y :: y in s && Le(x, y) && Le(y, x) ==> x.no <= y.no
    ensures Sorted(NotAfter, Insert(Le, x, s))
  {
    if s == [] {
    } else if Le(x, s[0]) {
      assert forall j :: 0 < j < |s| ==> NotAfter(s[0], s[j]);
      forall j | 0 <= j < |s|
        ensures NotAfter(x, s[j])
      {
        assert s[j] in s;
      }
    } else {
      var r := Insert(Le, x, s[1..]);
      InsertKeepsOrder(x, s[1..]);
      forall j | 0 <= j < |r|
        ensures NotAfter(s[0], r[j])
      {
        assert r[j] in multiset(r);
        assert r[j] == x || r[j] in s[1..];
      }
    }
  }

  /** Because the sort is stable, it puts the queue in the promised order. */
  lemma {:induction false} SortGivesOrder(q: seq<Task>)
    requires TiesInOrder(q)
    ensures Sorted(NotAfter, SortBy(Le, q))
  {
    if q != [] {
      SortGivesOrder(q[1..]);
      forall y | y in SortBy(Le, q[1..]) && Le(q[0], y) && Le(y, q[0])
        ensures q[0].no <= y.no
      {
        SortByMembers(Le, q[1..], y);
        var j :| 0 <= j < |q[1..]| && q[1..][j] == y;
        assert q[j + 1] == y;
      }
      InsertKeepsOrder(q[0], SortBy(Le, q[1..]));
    }
  }

  /** How many tasks of the queue go before `x`. */
  ghost function Ahead(q: seq<Task>, x: Task): nat {
    |Filter(t => t != x && NotAfter(t, x), q)|
  }

  lemma LeIsTotal()
    ensures TotalPreorder(Le)
  {
  }

  /** Taking the head of the sorted queue moves everyone who remains up by one place. */
  lemma TakingAdvances(q: seq<Task>, x: Task)
    requires TiesInOrder(q) && q != [] && x in SortBy(Le, q)[1..] && SortBy(Le, q)[0] != x
    ensures Ahead(SortBy(Le, q)[1..], x) + 1 == Ahead(q, x)
  {
    var s, keep := SortBy(Le, q), (t: Task) => t != x && NotAfter(t, x);
    SortGivesOrder(q);
    var j :| 1 <= j < |s| && s[j] == x;
    assert NotAfter(s[0], x);
    LeIsTotal();
    SortFilter(Le, keep, q);
    assert |Filter(keep, s)| == |Filter(keep, q)|;
    assert Filter(keep, s) == [s[0]] + Filter(keep, s[1..]);
  }

  /** A newcomer makes nobody wait longer unless it goes before them. */
  lemma ArrivalDelays(q: seq<Task>, t: Task, x: Task)
    ensures Ahead(q + [t], x) == Ahead(q, x) + if t != x && NotAfter(t, x) then 1 else 0
  {
    FilterConcat(y => y != x && NotAfter(y, x), q, [t]);
  }

  function TasksOf(s: seq<Settled>): seq<Task> {
    if s == [] then [] else TasksOf(s[..|s| - 1]) + [s[|s| - 1].task]
  }

  function AsSeq(t: Option<Task>): seq<Task> {
    if t.Some? then [t.value] else []
  }

  ghost predicate Numbered(all: seq<Task>) {
    forall i :: 0 <= i < |all| ==> all[i].no == i
  }

  /** Every call that ever arrived is waiting or has been started, and only one of these, once. */
  ghost predicate Accounted(all: seq<Task>, queue: seq<Task>, started: seq<Task>) {
    Numbered(all) && multiset(all) == multiset(queue) + multiset(started)
  }

  /** Calls are settled in the order they were started, each before the next one starts. */
  ghost predicate OneAtATime(started: seq<Task>, current: Option<Task>, settled: seq<Settled>) {
    started == TasksOf(settled) + AsSeq(current)
  }

  /** While the clock has not gone back: of two tasks of one priority, the earlier arrival has been started first. */
  ghost predicate FirstComeFirstServed(started: seq<Task>, queue: seq<Task>) {
    && (forall i, j :: 0 <= i < j < |started| && started[i].prio == started[j].prio ==> started[i].no < started[j].no)
    && (forall i, j :: 0 <= i < |started| && 0 <= j < |queue| && started[i].prio == queue[j].prio ==>
        started[i].no < queue[j].no)
  }

  ghost predicate ClockForward(all: seq<Task>) {
    forall i, j :: 0 <= i < j < |all| ==> all[i].enqueuedAt <= all[j].enqueuedAt
  }

  /** The arrivals carry the priorities their callers named. */
  ghost predicate Labelled(all: seq<Task>, asked: seq<string>) {
    |asked| == |all| && forall i :: 0 <= i < |all| ==> all[i].prio == PrioOf(asked[i])
  }

  /** Anything but "high" and "low" is an ordinary call. */
  predicate SameKind(p: string, q: string) {
    (p == "high" <==> q == "high") && (p == "low" <==> q == "low")
  }

  /**
   * Task `t` goes first of the queue by what the callers said: a "high" one if there is any, a "low" one only if there
   * is nothing else, and of its own kind the earliest by the clock, then by arrival.
   */
  ghost predicate GoesFirst(asked: seq<string>, t: Task, queue: seq<Task>) {
    && t.no < |asked| && (forall x :: x in queue ==> x.no < |asked|)
    && ((exists x :: x in queue && asked[x.no] == "high") ==> asked[t.no] == "high")
    && ((exists x :: x in queue && asked[x.no] != "low") ==> asked[t.no] != "low")
    && (forall x :: x in queue && SameKind(asked[x.no], asked[t.no]) ==>
          t.enqueuedAt < x.enqueuedAt || (t.enqueuedAt == x.enqueuedAt && t.no <= x.no))
  }

  lemma FirstByName(all: seq<Task>, asked: seq<string>, queue: seq<Task>, started: seq<Task>, t: Task)
    requires Labelled(all, asked) && Accounted(all, queue, started) && t in queue
    requires forall k :: 0 <= k < |queue| ==> NotAfter(t, queue[k])
    ensures GoesFirst(asked, t, queue)
  {
    forall x | x in queue
      ensures 0 <= x.no < |asked| && x.prio == PrioOf(asked[x.no]) && NotAfter(t, x)
    {
      KnownTask(all, queue, started, x);
    }
    hide Accounted, Labelled;
  }

  class Pump {
    var queue: seq<Task>
    var inflight: bool
    /** The task taken, and whether its run has begun or it still waits for the limiter. */
    var current: Option<Task>
    var running: bool
    var arrivals: nat
    ghost var all: seq<Task>
    /** The priority each arrival asked for. */
    ghost var asked: seq<string>
    ghost var started: seq<Task>
    ghost var settled: seq<Settled>

    /** At most one call is served, and nothing is lost or served out of turn. */
    ghost predicate Sound()
      reads this
    {
      && (inflight <==> current.Some?) && (running ==> inflight)
      && TiesInOrder(queue) && arrivals == |all| && Labelled(all, asked)
      && Accounted(all, queue, started) && OneAtATime(started, current, settled)
      && (ClockForward(all) ==> FirstComeFirstServed(started, queue))
    }

    /** Between two stretches, nobody waits while the pump rests. */
    ghost predicate Valid()
      reads this
    {
      Sound() && (!inflight ==> queue == [])
    }

    constructor ()
      ensures Valid() && all == [] && settled == [] && !inflight
    {
      queue, inflight, current, running := [], false, None, false;
      arrivals, all, asked, started, settled := 0, [], [], [], [];
    }

    /**
     * A call arrives. `mustWait` is the limiter's word, used only when the pump was at rest and takes the call at
     * once.
     */
    method Enqueue(priority: string, now: int, mustWait: bool) returns (t: Task)
      requires Valid()
      modifies this
      ensures Valid() && inflight
      ensures t.enqueuedAt == now && t.no == |old(all)| && all == old(all) + [t] && asked == old(asked) + [priority]
      ensures settled == old(settled)
      // At rest, the call is taken at once; otherwise it queues and nothing else happens.
      ensures !old(inflight) ==>
                current == Some(t) && queue == [] && running == !mustWait && started == old(started) + [t]
      ensures old(inflight) ==>
                queue == old(queue) + [t] && current == old(current) && running == old(running)
                    && started == old(started)
    {
      hide TiesInOrder, Accounted, FirstComeFirstServed, ClockForward, OneAtATime, SortBy, Le, PrioOf;
      asked := asked + [priority];
      t := Task(PrioOf(priority), now, arrivals);
      OneTaskSorts(t);
      ArrivalIsSound(all, queue, started, t);
      arrivals, queue, all := arrivals + 1, queue + [t], all + [t];
      Start(mustWait);
    }

    /** Set the pump going, unless it is going already. */
    method Start(mustWait: bool)
      requires Sound()
      modifies this
      ensures Valid() && all == old(all) && asked == old(asked) && settled == old(settled)
      ensures old(inflight) || old(queue) == [] ==>
                queue == old(queue) && inflight == old(inflight) && current == old(current)
                && running == old(running) && started == old(started)
      ensures !old(inflight) && old(queue) != [] ==>
                && current == Some(SortBy(Le, old(queue))[0]) && queue == SortBy(Le, old(queue))[1..]
                && started == old(started) + [current.value] && running == !mustWait
    {
      hide TiesInOrder, Accounted, FirstComeFirstServed, ClockForward, OneAtATime, SortBy, Le;
      hide Labelled;
      if inflight || |queue| == 0 {
        return;
      }
      inflight := true;
      Turn(mustWait);
    }

    /** The head of the pump's loop: take the next task, or come to rest. */
    method Turn(mustWait: bool)
      requires inflight && current == None && arrivals == |all| && TiesInOrder(queue) && Labelled(all, asked)
      requires Accounted(all, queue, started) && OneAtATime(started, None, settled)
      requires ClockForward(all) ==> FirstComeFirstServed(started, queue)
      modifies this
      ensures Valid() && all == old(all) && asked == old(asked) && settled == old(settled)
      ensures old(queue) == [] ==> !inflight && current == None && queue == [] && started == old(started) && !running
      ensures old(queue) != [] ==>
                && current == Some(SortBy(Le, old(queue))[0]) && queue == SortBy(Le, old(queue))[1..]
                && started == old(started) + [current.value] && running == !mustWait
    {
      hide TiesInOrder, Accounted, FirstComeFirstServed, ClockForward, OneAtATime, SortBy, Le;
      if |queue| > 0 {
        TakeIsSound(all, queue, started);
        queue := SortBy(Le, queue);
        var task := queue[0];
        queue := queue[1..];
        StartedNext(started, settled, task);
        current, running := Some(task), !mustWait;
        started := started + [task];
      } else {
        inflight, running := false, false;
      }
    }

    /** The limiter's pause is over: the task that was taken runs. */
    method Wake()
      requires Valid() && current.Some? && !running
      modifies this`running
      ensures Valid() && running
    {
      running := true;
    }

    /** The running call ends; its promise is settled, and the task that goes first in the promised order is next. */
    method Finish(ok: bool, mustWait: bool)
      requires Valid() && running
      modifies this
      ensures Valid() && all == old(all) && asked == old(asked)
      ensures settled == old(settled) + [Settled(old(current).value, ok)]
      // No lost wakeup: the pump rests exactly when nobody waits.
      ensures inflight <==> old(queue) != []
      ensures old(queue) != [] ==>
                && current.Some? && multiset(old(queue)) == multiset(queue) + multiset{current.value}
                && GoesFirst(asked, current.value, old(queue))
                && running == !mustWait
      // Everyone who still waits has moved up by one place.
      ensures forall x :: x in queue && current != Some(x) ==> Ahead(queue, x) + 1 == Ahead(old(queue), x)
    {
      hide TiesInOrder, Accounted, FirstComeFirstServed, ClockForward, OneAtATime, NotAfter, Ahead, Labelled, GoesFirst;
      ghost var waiting, before := queue, started;
      SettledNext(started, current.value, settled, ok);
      settled := settled + [Settled(current.value, ok)];
      current := None;
      Turn(mustWait);
      if waiting != [] {
        HeadIsFirst(waiting);
        FirstByName(all, asked, waiting, before, current.value);
        forall x | x in queue && current != Some(x)
          ensures Ahead(queue, x) + 1 == Ahead(waiting, x)
        {
          TakingAdvances(waiting, x);
        }
      }
    }
  }

  lemma OneTaskSorts(t: Task)
    ensures SortBy(Le, [t]) == [t]
  {
  }

  lemma StartedNext(started: seq<Task>, settled: seq<Settled>, t: Task)
    requires OneAtATime(started, None, settled)
    ensures OneAtATime(started + [t], Some(t), settled)
  {
  }

  lemma SettledNext(started: seq<Task>, t: Task, settled: seq<Settled>, ok: bool)
    requires OneAtATime(started, Some(t), settled)
    ensures OneAtATime(started, None, settled + [Settled(t, ok)])
  {
    assert (settled + [Settled(t, ok)])[..|settled|] == settled;
  }

  lemma HeadIsFirst(q: seq<Task>)
    requires TiesInOrder(q) && q != []
    ensures var s := SortBy(Le, q);
            && multiset(q) == multiset(s[1..]) + multiset{s[0]} && s[0] in q
            && forall k :: 0 <= k < |q| ==> NotAfter(s[0], q[k])
  {
    hide NotAfter, TiesInOrder;
    var s := SortBy(Le, q);
    SortGivesOrder(q);
    assert s == [s[0]] + s[1..];
    SortByMembers(Le, q, s[0]);
    forall k | 0 <= k < |q|
      ensures NotAfter(s[0], q[k])
    {
      SortByMembers(Le, q, q[k]);
      var j :| 0 <= j < |s| && s[j] == q[k];
      NotAfterItself(s[0]);
    }
  }

  lemma NotAfterItself(t: Task)
    ensures NotAfter(t, t)
  {
  }

  /** A task known to the queue is the arrival its number says. */
  lemma KnownTask(all: seq<Task>, queue: seq<Task>, started: seq<Task>, t: Task)
    requires Accounted(all, queue, started) && (t in queue || t in started)
    ensures 0 <= t.no < |all| && all[t.no] == t
  {
    assert t in multiset(all);
    var i :| 0 <= i < |all| && all[i] == t;
  }

  lemma ArrivalIsSound(all: seq<Task>, queue: seq<Task>, started: seq<Task>, t: Task)
    requires TiesInOrder(queue) && Accounted(all, queue, started) && t.no == |all|
    requires ClockForward(all) ==> FirstComeFirstServed(started, queue)
    ensures TiesInOrder(queue + [t]) && Accounted(all + [t], queue + [t], started)
    ensures ClockForward(all + [t]) ==> FirstComeFirstServed(started, queue + [t])
  {
    forall x | x in queue || x in started
      ensures x.no < t.no
    {
      KnownTask(all, queue, started, x);
    }
    var all', queue' := all + [t], queue + [t];
    assert forall i :: 0 <= i < |queue| ==> queue[i] in queue && queue'[i] == queue[i];
    assert forall i :: 0 <= i < |started| ==> started[i] in started;
    if ClockForward(all') {
      assert forall i :: 0 <= i < |all| ==> all'[i] == all[i];
      assert ClockForward(all);
    }
  }

  /** No task occurs twice. */
  lemma {:induction false} OncePerNumber(all: seq<Task>, t: Task)
    requires Numbered(all)
    ensures multiset(all)[t] <= 1
  {
    if all != [] {
      var n := |all| - 1;
      assert all == all[..n] + [all[n]];
      OncePerNumber(all[..n], t);
      if all[n] == t {
        assert t !in all[..n];
        assert t !in multiset(all[..n]);
      }
    }
  }

  lemma TakeIsSound(all: seq<Task>, queue: seq<Task>, started: seq<Task>)
    requires queue != [] && TiesInOrder(queue) && Accounted(all, queue, started)
    requires ClockForward(all) ==> FirstComeFirstServed(started, queue)
    ensures var s := SortBy(Le, queue);
            && TiesInOrder(s[1..]) && Accounted(all, s[1..], started + [s[0]])
            && (ClockForward(all) ==> FirstComeFirstServed(started + [s[0]], s[1..]))
  {
    var s := SortBy(Le, queue);
    SortGivesOrder(queue);
    SortedTies(s);
    assert s == [s[0]] + s[1..];
    assert Accounted(all, s, started);
    if ClockForward(all) {
      hide TiesInOrder;
      SameFirstServed(started, queue, s);
      TakeKeepsTurns(all, s, started);
    }
  }

  lemma SortedTies(s: seq<Task>)
    requires Sorted(NotAfter, s) && s != []
    ensures TiesInOrder(s[1..])
  {
    var r := s[1..];
    forall i, j | 0 <= i < j < |r| && Le(r[i], r[j]) && Le(r[j], r[i])
      ensures r[i].no <= r[j].no
    {
      assert NotAfter(s[i + 1], s[j + 1]);
    }
  }

  lemma SameFirstServed(started: seq<Task>, q: seq<Task>, s: seq<Task>)
    requires FirstComeFirstServed(started, q) && multiset(q) == multiset(s)
    ensures FirstComeFirstServed(started, s)
  {
    forall j | 0 <= j < |s|
      ensures exists k :: 0 <= k < |q| && q[k] == s[j]
    {
      assert s[j] in multiset(s);
      assert s[j] in q;
    }
  }

  lemma TakeKeepsTurns(all: seq<Task>, s: seq<Task>, started: seq<Task>)
    requires s != [] && Sorted(NotAfter, s) && Accounted(all, s, started)
    requires ClockForward(all) && FirstComeFirstServed(started, s)
    ensures FirstComeFirstServed(started + [s[0]], s[1..])
  {
    forall j | 1 <= j < |s| && s[0].prio == s[j].prio
      ensures s[0].no < s[j].no
    {
      assert NotAfter(s[0], s[j]);
      KnownTask(all, s, started, s[0]);
      KnownTask(all, s, started, s[j]);
      if s[0].no == s[j].no {
        OncePerNumber(all, s[0]);
        TwiceIn(s, j);
      }
    }
  }

  lemma TwiceIn(s: seq<Task>, j: nat)
    requires 1 <= j < |s| && s[j] == s[0]
    ensures multiset(s)[s[0]] >= 2
  {
    assert s == [s[0]] + s[1..j] + [s[j]] + s[j + 1..];
  }

  /** When the pump is at rest, every call that ever arrived has been settled exactly once. */
  lemma RestMeansSettled(all: seq<Task>, started: seq<Task>, settled: seq<Settled>, t: Task)
    requires Accounted(all, [], started) && OneAtATime(started, None, settled)
    ensures |settled| == |all|
    ensures multiset(TasksOf(settled))[t] == if t in all then 1 else 0
  {
    assert started == TasksOf(settled);
    assert |multiset(all)| == |multiset(started)|;
    SettledLength(settled);
    OncePerNumber(all, t);
    assert t in all <==> t in multiset(all);
  }

  lemma {:induction false} SettledLength(s: seq<Settled>)
    ensures |TasksOf(s)| == |s|
  {
    if s != [] {
      SettledLength(s[..|s| - 1]);
    }
  }
}
