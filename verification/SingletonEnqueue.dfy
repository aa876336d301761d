/**
 * Enqueueing a singleton job (backend/src/jobs/queues.js, enqueueWithQueue): look, ask for the state, remove, add, each
 * a round trip to Redis under a deadline, with workers and other producers acting in between. What is assumed of the
 * job queue: one job to an id; a remove fails on an active job; an add to a taken id returns the job that is there.
 */
module SingletonEnqueue {
  import opened Common

  datatype State = Waiting | Delayed | Active | Completed | Failed | Unknown

  /** `timestamp` is the producer's clock when the add that made the job was issued. */
  datatype Job = Job(uid: nat, timestamp: int, state: State)

  /** The round trip at which a call was given up; its error names it. */
  datatype RoundTrip = AtGetJob | AtGetState | AtAdd

  /** Where a producer's call has got to; `id` numbers the calls, `at` is when the call began. */
  datatype Call =
    | Idle
    | Looking(id: nat, at: int)
    | Asking(id: nat, at: int)
    | Removing(id: nat, at: int)
    | Adding(id: nat, at: int, issued: int)
    | Held(id: nat, at: int, uid: nat)
    | Enqueued(id: nat, at: int, job: Job)
    | NoOp(id: nat, at: int, job: Job)
    | Rejected(id: nat, at: int, trip: RoundTrip)

  /** A command whose producer has stopped waiting for it. */
  datatype Late = LateRemove | LateAdd(id: nat, issued: int)

  /** `running` are the jobs some worker is executing, `begun` counts the calls, `made` are those that made a job. */
  datatype World = World(
    now: int, next: nat, slot: Option<Job>, running: set<nat>, calls: seq<Call>, late: seq<Late>,
    begun: nat, made: set<nat>)

  datatype Step =
    | Begin(p: nat)
    | GetJob(p: nat)
    | GetState(p: nat)
    | Remove(p: nat)
    | Add(p: nat)
    | Deadline(p: nat, lands: bool)
    | Lands(i: nat)
    | Lost(i: nat)
    | Take
    | Finish(ok: bool, keep: bool)
    | WorkerDies
    | Promote
    | Corrupt
    | Tick(ms: nat)

  function By(s: Step): Option<nat> {
    match s
    case Begin(p) => Some(p)
    case GetJob(p) => Some(p)
    case GetState(p) => Some(p)
    case Remove(p) => Some(p)
    case Add(p) => Some(p)
    case Deadline(p, _) => Some(p)
    case _ => None
  }

  predicate IsActive(slot: Option<Job>) {
    slot.Some? && slot.value.state == Active
  }

  // ---- what Redis does ------------------------------------------------------------------------

  /** A remove clears the id unless its job is active; on an empty id it succeeds and does nothing. */
  function RemoveAtRedis(w: World): World {
    if IsActive(w.slot) then w else w.(slot := None)
  }

  /** An add makes a job unless the id is taken. Either way the slot afterwards holds what it returns. */
  function AddAtRedis(w: World, id: nat, issued: int): World {
    if w.slot.Some? then w
    else w.(slot := Some(Job(w.next, issued, Waiting)), next := w.next + 1, made := w.made + {id})
  }

  // ---- the steps ------------------------------------------------------------------------------

  function WithCall(w: World, p: nat, c: Call): World
    requires p < |w.calls|
  {
    w.(calls := w.calls[p := c])
  }

  /** The freshness check on what the add returned. */
  function Judge(id: nat, at: int, job: Job): Call {
    if job.timestamp < at then NoOp(id, at, job) else Enqueued(id, at, job)
  }

  predicate InFlight(c: Call) {
    c.Looking? || c.Asking? || c.Removing? || c.Adding?
  }

  /** A step of producer `p`; one that its call is not ready for does nothing. */
  function Produce(w: World, p: nat, s: Step): World
    requires p < |w.calls|
  {
    var c := w.calls[p];
    match s
    case Begin(_) =>
      if InFlight(c) then w else WithCall(w.(begun := w.begun + 1), p, Looking(w.begun, w.now))
    case GetJob(_) =>
      if !c.Looking? then w
      else WithCall(w, p, if w.slot.Some? then Asking(c.id, c.at) else Adding(c.id, c.at, w.now))
    case GetState(_) =>
      if !c.Asking? then w
      else WithCall(w, p, if IsActive(w.slot) then Held(c.id, c.at, w.slot.value.uid) else Removing(c.id, c.at))
    case Remove(_) =>
      // A failed remove is only logged: the call goes on to the add either way.
      if !c.Removing? then w else WithCall(RemoveAtRedis(w), p, Adding(c.id, c.at, w.now))
    case Add(_) =>
      if !c.Adding? then w
      else var w' := AddAtRedis(w, c.id, c.issued); WithCall(w', p, Judge(c.id, c.at, w'.slot.value))
    case Deadline(_, lands) =>
      // The command is not cancelled: it may still land. Only the remove's deadline is caught.
      if c.Looking? then WithCall(w, p, Rejected(c.id, c.at, AtGetJob))
      else if c.Asking? then WithCall(w, p, Rejected(c.id, c.at, AtGetState))
      else if c.Removing? then
        WithCall(w.(late := if lands then w.late + [LateRemove] else w.late), p, Adding(c.id, c.at, w.now))
      else if c.Adding? then
        WithCall(w.(late := if lands then w.late + [LateAdd(c.id, c.issued)] else w.late), p,
            Rejected(c.id, c.at, AtAdd))
      else w
    case _ => w
  }

  function Without(late: seq<Late>, i: nat): seq<Late>
    requires i < |late|
  {
    late[..i] + late[i + 1..]
  }

  function InState(w: World, state: State): World
    requires w.slot.Some?
  {
    w.(slot := Some(w.slot.value.(state := state)))
  }

  /** A step of a worker, of Redis, or of the clock. */
  function Elsewhere(w: World, s: Step): World {
    match s
    case Lands(i) =>
      if i >= |w.late| then w
      else
        var w' := w.(late := Without(w.late, i));
        (match w.late[i] case LateRemove => RemoveAtRedis(w') case LateAdd(id, issued) => AddAtRedis(w', id, issued))
    case Lost(i) => if i >= |w.late| then w else w.(late := Without(w.late, i))
    case Take =>
      if w.slot.Some? && w.slot.value.state == Waiting
      then InState(w, Active).(running := w.running + {w.slot.value.uid}) else w
    case Finish(ok, keep) =>
      if !IsActive(w.slot) then w
      else
        var w' := w.(running := w.running - {w.slot.value.uid});
        if keep then InState(w', if ok then Completed else Failed) else w'.(slot := None)
    case WorkerDies =>
      if !IsActive(w.slot) then w else InState(w, Waiting).(running := w.running - {w.slot.value.uid})
    case Promote => if w.slot.Some? && w.slot.value.state == Delayed then InState(w, Waiting) else w
    case Corrupt => if w.slot.Some? && !IsActive(w.slot) then InState(w, Unknown) else w
    case Tick(ms) => w.(now := w.now + ms)
    case _ => w
  }

  function Next(w: World, s: Step): World {
    if By(s).Some? then (if By(s).value < |w.calls| then Produce(w, By(s).value, s) else w) else Elsewhere(w, s)
  }

  // ---- what every step keeps ------------------------------------------------------------------

  /** A call's clock readings are in order, and its verdict on what it returned is right. */
  predicate CallOk(now: int, c: Call) {
    match c
    case Idle => true
    case Adding(_, at, issued) => at <= issued <= now
    case Enqueued(_, at, job) => at <= job.timestamp <= now
    case NoOp(_, at, job) => job.timestamp < at <= now
    case _ => c.at <= now
  }

  ghost predicate Safe(w: World) {
    // Nobody works on anything but the one job that is active.
    && w.running == (if IsActive(w.slot) then {w.slot.value.uid} else {})
    && (w.slot.Some? ==> w.slot.value.timestamp <= w.now && w.slot.value.uid < w.next)
    && (forall p :: 0 <= p < |w.calls| ==> CallOk(w.now, w.calls[p]))
    && (forall i :: 0 <= i < |w.late| && w.late[i].LateAdd? ==> w.late[i].issued <= w.now)
  }

  lemma ProduceIsSafe(w: World, p: nat, s: Step)
    requires Safe(w) && p < |w.calls|
    ensures Safe(Produce(w, p, s))
  {
  }

  lemma ElsewhereIsSafe(w: World, s: Step)
    requires Safe(w)
    ensures Safe(Elsewhere(w, s))
  {
    if (s.Lands? || s.Lost?) && s.i < |w.late| {
      var rest := Without(w.late, s.i);
      assert forall k :: 0 <= k < |rest| ==> rest[k] == w.late[if k < s.i then k else k + 1];
    }
  }

  ghost predicate Begins(w: World) {
    && w.running == {} && w.late == [] && w.made == {} && !IsActive(w.slot)
    && (w.slot.Some? ==> w.slot.value.timestamp <= w.now && w.slot.value.uid < w.next)
    && forall p :: 0 <= p < |w.calls| ==> w.calls[p] == Idle
  }

  /** A run, from any leftover job, with any number of producers. */
  ghost predicate IsRun(steps: seq<Step>, worlds: seq<World>) {
    && |worlds| == |steps| + 1 && Begins(worlds[0])
    && forall k :: 0 <= k < |steps| ==> worlds[k + 1] == Next(worlds[k], steps[k])
  }

  lemma {:induction false} RunIsSafe(steps: seq<Step>, worlds: seq<World>, k: nat)
    requires IsRun(steps, worlds) && k <= |steps|
    ensures Safe(worlds[k])
  {
    if k > 0 {
      RunIsSafe(steps, worlds, k - 1);
      var w, s := worlds[k - 1], steps[k - 1];
      assert worlds[k - 1 + 1] == Next(w, s);
      if By(s).None? {
        ElsewhereIsSafe(w, s);
      } else if By(s).value < |w.calls| {
        ProduceIsSafe(w, By(s).value, s);
      }
    }
  }

  /** A job with this id is never being executed twice at once, whatever the producers do. */
  lemma NeverTwoActive(steps: seq<Step>, worlds: seq<World>, k: nat)
    requires IsRun(steps, worlds) && k <= |steps|
    ensures |worlds[k].running| <= 1
    ensures forall uid :: uid in worlds[k].running ==> IsActive(worlds[k].slot) && worlds[k].slot.value.uid == uid
  {
    RunIsSafe(steps, worlds, k);
  }

  /**
   * A call that has just returned normally either saw the job active at that moment, or was handed the job that then
   * holds the id, and that job was asked for after the call began. A stale job is never reported as enqueued.
   */
  lemma NormalReturnIsHonest(steps: seq<Step>, worlds: seq<World>, k: nat, p: nat)
    requires IsRun(steps, worlds) && k < |steps| && p < |worlds[k].calls| == |worlds[k + 1].calls|
    requires worlds[k].calls[p] != worlds[k + 1].calls[p]
    ensures var c := worlds[k + 1].calls[p];
            && (c.Held? ==> IsActive(worlds[k].slot) && worlds[k].slot.value.uid == c.uid && c.uid in worlds[k].running)
            && (c.Enqueued? ==> worlds[k + 1].slot == Some(c.job) && c.at <= c.job.timestamp
                                && (worlds[k].slot == None || worlds[k].slot == Some(c.job)))
            && (c.NoOp? ==> worlds[k].slot == Some(c.job) == worlds[k + 1].slot && c.job.timestamp < c.at)
  {
    RunIsSafe(steps, worlds, k);
    assert worlds[k + 1] == Next(worlds[k], steps[k]);
  }

  // ---- a leftover is cleared within one call --------------------------------------------------

  /** The job at the id, if any, was asked for at `at` or later, and so was every add still on its way. */
  ghost predicate OnlyFresh(w: World, at: int) {
    && (w.slot.Some? ==> w.slot.value.timestamp >= at)
    && (forall i :: 0 <= i < |w.late| && w.late[i].LateAdd? ==> w.late[i].issued >= at)
    && (forall q :: 0 <= q < |w.calls| && w.calls[q].Adding? ==> w.calls[q].issued >= at)
  }

  /** No add asked for before `at` is still on its way. */
  ghost predicate NoOlderAdd(w: World, at: int) {
    && (forall i :: 0 <= i < |w.late| && w.late[i].LateAdd? ==> w.late[i].issued >= at)
    && (forall q :: 0 <= q < |w.calls| && w.calls[q].Adding? ==> w.calls[q].issued >= at)
  }

  lemma ProduceStaysFresh(w: World, p: nat, s: Step, at: int)
    requires Safe(w) && OnlyFresh(w, at) && at <= w.now && p < |w.calls|
    ensures OnlyFresh(Produce(w, p, s), at)
  {
  }

  lemma ElsewhereStaysFresh(w: World, s: Step, at: int)
    requires Safe(w) && OnlyFresh(w, at) && at <= w.now
    ensures OnlyFresh(Elsewhere(w, s), at)
  {
    if (s.Lands? || s.Lost?) && s.i < |w.late| {
      var rest := Without(w.late, s.i);
      assert forall k :: 0 <= k < |rest| ==> rest[k] == w.late[if k < s.i then k else k + 1];
    }
  }

  lemma FreshStays(w: World, s: Step, at: int)
    requires Safe(w) && OnlyFresh(w, at) && at <= w.now
    ensures OnlyFresh(Next(w, s), at)
  {
    hide OnlyFresh, Safe, Produce, Elsewhere;
    if By(s).None? {
      ElsewhereStaysFresh(w, s, at);
    } else if By(s).value < |w.calls| {
      ProduceStaysFresh(w, By(s).value, s, at);
    }
  }

  lemma RemoveFreshens(w: World, p: nat)
    requires Safe(w) && p < |w.calls| && w.calls[p].Removing?
    requires !IsActive(w.slot) && NoOlderAdd(w, w.calls[p].at)
    ensures OnlyFresh(Next(w, Remove(p)), w.calls[p].at)
  {
  }

  ghost predicate Path(steps: seq<Step>, worlds: seq<World>) {
    && |worlds| == |steps| + 1
    && forall k :: 0 <= k < |steps| ==> worlds[k + 1] == Next(worlds[k], steps[k])
  }

  lemma OthersDoNotTouch(w: World, s: Step, p: nat)
    requires p < |w.calls| && By(s) != Some(p)
    ensures |Next(w, s).calls| == |w.calls| && Next(w, s).calls[p] == w.calls[p] && Next(w, s).now >= w.now
  {
  }

  lemma {:induction false} FreshAlongPath(steps: seq<Step>, worlds: seq<World>, p: nat, c: Call, k: nat)
    requires Path(steps, worlds) && k <= |steps| && (forall j :: 0 <= j < |worlds| ==> Safe(worlds[j]))
    requires c.Adding? && p < |worlds[0].calls| && worlds[0].calls[p] == c && OnlyFresh(worlds[0], c.at)
    requires forall j :: 0 <= j < |steps| ==> By(steps[j]) != Some(p)
    ensures p < |worlds[k].calls| && worlds[k].calls[p] == c && OnlyFresh(worlds[k], c.at)
  {
    hide OnlyFresh, Next;
    if k > 0 {
      FreshAlongPath(steps, worlds, p, c, k - 1);
      assert worlds[k - 1 + 1] == Next(worlds[k - 1], steps[k - 1]);
      assert CallOk(worlds[k - 1].now, worlds[k - 1].calls[p]);
      FreshStays(worlds[k - 1], steps[k - 1], c.at);
      OthersDoNotTouch(worlds[k - 1], steps[k - 1], p);
    }
  }

  lemma NextIsSafe(w: World, s: Step)
    requires Safe(w)
    ensures Safe(Next(w, s))
  {
    if By(s).None? {
      ElsewhereIsSafe(w, s);
    } else if By(s).value < |w.calls| {
      ProduceIsSafe(w, By(s).value, s);
    }
  }

  lemma {:induction false} PathIsSafe(steps: seq<Step>, worlds: seq<World>, k: nat)
    requires Path(steps, worlds) && Safe(worlds[0]) && k <= |steps|
    ensures Safe(worlds[k])
  {
    hide Safe, Next;
    if k > 0 {
      PathIsSafe(steps, worlds, k - 1);
      NextIsSafe(worlds[k - 1], steps[k - 1]);
      assert worlds[k - 1 + 1] == Next(worlds[k - 1], steps[k - 1]);
    }
  }

  /** Whatever the others do after the call of `p` has removed, its add returns normally. */
  ghost predicate AlwaysEnqueued(before: World, p: nat) {
    forall steps: seq<Step>, worlds: seq<World> ::
      Path(steps, worlds) && worlds[0] == Next(before, Remove(p))
          && (forall j :: 0 <= j < |steps| ==> By(steps[j]) != Some(p))
      ==> EnqueuedBy(Next(worlds[|steps|], Add(p)), p)
  }

  ghost predicate EnqueuedBy(w: World, p: nat) {
    p < |w.calls| && w.calls[p].Enqueued?
  }

  lemma RemovedMeansEnqueued(before: World, steps: seq<Step>, worlds: seq<World>, p: nat)
    requires Safe(before) && p < |before.calls| && before.calls[p].Removing? && !IsActive(before.slot)
    requires NoOlderAdd(before, before.calls[p].at)
    requires Path(steps, worlds) && worlds[0] == Next(before, Remove(p))
    requires forall j :: 0 <= j < |steps| ==> By(steps[j]) != Some(p)
    ensures EnqueuedBy(Next(worlds[|steps|], Add(p)), p)
  {
    RemoveFreshens(before, p);
    NextIsSafe(before, Remove(p));
    forall j | 0 <= j < |worlds|
      ensures Safe(worlds[j])
    {
      PathIsSafe(steps, worlds, j);
    }
    FreshAlongPath(steps, worlds, p, worlds[0].calls[p], |steps|);
  }

  /** An older add that is still on its way refills the id, and the call's own add is handed the older job. */
  lemma OlderAddSpoils(before: World, p: nat) returns (s: Step)
    requires Safe(before) && p < |before.calls| && before.calls[p].Removing? && !IsActive(before.slot)
    requires !NoOlderAdd(before, before.calls[p].at)
    ensures By(s) != Some(p)
    ensures var w := Next(Next(Next(before, Remove(p)), s), Add(p)); p < |w.calls| && w.calls[p].NoOp?
  {
    var at := before.calls[p].at;
    if i :| 0 <= i < |before.late| && before.late[i].LateAdd? && before.late[i].issued < at {
      s := Lands(i);
    } else {
      var q :| 0 <= q < |before.calls| && before.calls[q].Adding? && before.calls[q].issued < at;
      s := Add(q);
    }
  }

  /**
   * Once a call's remove has found its leftover removable, its add is certain to return normally, however much happens
   * in between, exactly when no add asked for before the call began is still on its way.
   */
  lemma RemovedMeansEnqueuedIff(before: World, p: nat)
    requires Safe(before) && p < |before.calls| && before.calls[p].Removing? && !IsActive(before.slot)
    ensures AlwaysEnqueued(before, p) <==> NoOlderAdd(before, before.calls[p].at)
  {
    if NoOlderAdd(before, before.calls[p].at) {
      forall steps: seq<Step>, worlds: seq<World> |
        Path(steps, worlds) && worlds[0] == Next(before, Remove(p))
        && forall j :: 0 <= j < |steps| ==> By(steps[j]) != Some(p)
        ensures EnqueuedBy(Next(worlds[|steps|], Add(p)), p)
      {
        RemovedMeansEnqueued(before, steps, worlds, p);
      }
    } else {
      var s := OlderAddSpoils(before, p);
      var w := Next(before, Remove(p));
      var steps, worlds := [s], [w, Next(w, s)];
      assert Path(steps, worlds);
      assert !EnqueuedBy(Next(worlds[|steps|], Add(p)), p);
    }
  }

  // ---- when a rejected call makes a job ---------------------------------------------------------

  ghost predicate OwnNumbers(w: World) {
    && (forall p :: 0 <= p < |w.calls| && w.calls[p] != Idle ==> w.calls[p].id < w.begun)
    && (forall p, q :: 0 <= p < q < |w.calls| && w.calls[p] != Idle && w.calls[q] != Idle ==>
        w.calls[p].id != w.calls[q].id)
  }

  /**
   * Calls have numbers of their own; a late add is of a call rejected at its add; only a call past its add made a
   * job.
   */
  ghost predicate Numbered(w: World) {
    && OwnNumbers(w)
    && (forall i :: 0 <= i < |w.late| && w.late[i].LateAdd? ==> GivenUpAtAdd(w, w.late[i].id))
    && (forall id :: id in w.made ==> PastAdd(w, id))
  }

  /** No call with this number is under way, and one that shows it was rejected at its add. */
  ghost predicate GivenUpAtAdd(w: World, id: nat) {
    id < w.begun && forall p :: 0 <= p < |w.calls| && w.calls[p] != Idle && w.calls[p].id == id ==>
      w.calls[p].Rejected? && w.calls[p].trip == AtAdd
  }

  /** No call with this number is under way, and one that shows it has sent its add. */
  ghost predicate PastAdd(w: World, id: nat) {
    id < w.begun && forall p :: 0 <= p < |w.calls| && w.calls[p] != Idle && w.calls[p].id == id ==>
      w.calls[p].Enqueued? || w.calls[p].NoOp? || (w.calls[p].Rejected? && w.calls[p].trip == AtAdd)
  }

  /** No call with this number is under way any more. */
  ghost predicate Over(w: World, id: nat) {
    id < w.begun && forall p :: 0 <= p < |w.calls| && InFlight(w.calls[p]) ==> w.calls[p].id != id
  }

  /** Nor is an add of it, and it has made no job. */
  ghost predicate Spent(w: World, id: nat) {
    Over(w, id) && id !in w.made && forall i :: 0 <= i < |w.late| && w.late[i].LateAdd? ==> w.late[i].id != id
  }

  /** No call with this number is under way, and one that shows it was answered by its add. */
  ghost predicate Answered(w: World, id: nat) {
    Over(w, id) && forall p :: 0 <= p < |w.calls| && w.calls[p] != Idle && w.calls[p].id == id ==> !w.calls[p].Rejected?
  }

  /** What a producer's step changes: its own call, and by its add alone what is late or made. */
  ghost predicate Changes(w: World, w': World, p: nat)
    requires p < |w.calls|
  {
    var c := w.calls[p];
    && |w'.calls| == |w.calls| && (forall q :: 0 <= q < |w.calls| && q != p ==> w'.calls[q] == w.calls[q])
    && w'.calls[p] != Idle && w'.calls[p].id == (if InFlight(c) then c.id else w.begun)
    && w'.begun == (if InFlight(c) then w.begun else w.begun + 1)
    && (w'.late == w.late || (exists x :: w'.late == w.late + [x] && (x.LateAdd? ==> GivesUpAdd(c, w'.calls[p], x.id))))
    && (w'.made == w.made || (w'.made == w.made + {w'.calls[p].id} && (w'.calls[p].Enqueued? || w'.calls[p].NoOp?)))
  }

  predicate GivesUpAdd(c: Call, c': Call, id: nat) {
    c.Adding? && id == c.id && c'.Rejected? && c'.trip == AtAdd
  }

  lemma ProduceChanges(w: World, p: nat, s: Step)
    requires p < |w.calls|
    ensures Produce(w, p, s) == w || Changes(w, Produce(w, p, s), p)
  {
    var c := w.calls[p];
    if s.Deadline? && s.lands && c.Adding? {
      assert GivesUpAdd(c, Produce(w, p, s).calls[p], c.id);
      assert Produce(w, p, s).late == w.late + [LateAdd(c.id, c.issued)];
    } else if s.Deadline? && s.lands && c.Removing? {
      assert Produce(w, p, s).late == w.late + [LateRemove];
    }
  }

  lemma MarksStay(w: World, w': World, p: nat, id: nat)
    requires p < |w.calls| && Changes(w, w', p) && !(InFlight(w.calls[p]) && w.calls[p].id == id)
    ensures GivenUpAtAdd(w, id) ==> GivenUpAtAdd(w', id)
    ensures PastAdd(w, id) ==> PastAdd(w', id)
  {
  }

  lemma MarksAreNotInFlight(w: World, p: nat, id: nat)
    requires p < |w.calls| && InFlight(w.calls[p]) && (GivenUpAtAdd(w, id) || PastAdd(w, id))
    ensures w.calls[p].id != id
  {
  }

  lemma NumbersStay(w: World, w': World, p: nat)
    requires p < |w.calls| && Changes(w, w', p) && OwnNumbers(w)
    ensures OwnNumbers(w')
    ensures (w'.calls[p].Rejected? && w'.calls[p].trip == AtAdd) ==> GivenUpAtAdd(w', w'.calls[p].id)
    ensures (w'.calls[p].Enqueued? || w'.calls[p].NoOp?) ==> PastAdd(w', w'.calls[p].id)
  {
  }

  lemma ProduceStaysNumbered(w: World, p: nat, s: Step)
    requires Numbered(w) && p < |w.calls|
    ensures Numbered(Produce(w, p, s))
  {
    var w' := Produce(w, p, s);
    ProduceChanges(w, p, s);
    hide Produce, OwnNumbers;
    if w' != w {
      NumbersStay(w, w', p);
      forall id | GivenUpAtAdd(w, id) || PastAdd(w, id)
        ensures GivenUpAtAdd(w, id) ==> GivenUpAtAdd(w', id)
        ensures PastAdd(w, id) ==> PastAdd(w', id)
      {
        if InFlight(w.calls[p]) {
          MarksAreNotInFlight(w, p, id);
        }
        MarksStay(w, w', p, id);
      }
      hide GivenUpAtAdd, PastAdd;
    }
  }

  lemma ElsewhereStaysNumbered(w: World, s: Step)
    requires Numbered(w)
    ensures Numbered(Elsewhere(w, s))
  {
    var w' := Elsewhere(w, s);
    assert w'.calls == w.calls && w'.begun == w.begun;
    forall id | PastAdd(w, id)
      ensures PastAdd(w', id)
    {
    }
    forall id | GivenUpAtAdd(w, id)
      ensures GivenUpAtAdd(w', id) && PastAdd(w', id)
    {
    }
    hide PastAdd, GivenUpAtAdd;
    if (s.Lands? || s.Lost?) && s.i < |w.late| {
      var rest := Without(w.late, s.i);
      assert forall k :: 0 <= k < |rest| ==> rest[k] == w.late[if k < s.i then k else k + 1];
    }
  }

  lemma {:induction false} RunIsNumbered(steps: seq<Step>, worlds: seq<World>, k: nat)
    requires IsRun(steps, worlds) && k <= |steps|
    ensures Numbered(worlds[k])
  {
    hide Numbered, Next;
    if k == 0 {
      BeginsNumbered(worlds[0]);
    } else {
      RunIsNumbered(steps, worlds, k - 1);
      NextStaysNumbered(worlds[k - 1], steps[k - 1]);
      assert worlds[k - 1 + 1] == Next(worlds[k - 1], steps[k - 1]);
    }
  }

  lemma BeginsNumbered(w: World)
    requires Begins(w)
    ensures Numbered(w)
  {
  }

  lemma NextStaysNumbered(w: World, s: Step)
    requires Numbered(w)
    ensures Numbered(Next(w, s))
  {
    hide Numbered, Produce, Elsewhere;
    if By(s).None? {
      ElsewhereStaysNumbered(w, s);
    } else if By(s).value < |w.calls| {
      ProduceStaysNumbered(w, By(s).value, s);
    }
  }

  lemma OverStays(w: World, s: Step, id: nat)
    requires Over(w, id)
    ensures Over(Next(w, s), id)
  {
  }

  lemma SpentStays(w: World, s: Step, id: nat)
    requires Spent(w, id)
    ensures Spent(Next(w, s), id)
  {
    OverStays(w, s, id);
    hide Over;
    if (s.Lands? || s.Lost?) && s.i < |w.late| {
      var rest := Without(w.late, s.i);
      assert forall k :: 0 <= k < |rest| ==> rest[k] == w.late[if k < s.i then k else k + 1];
    }
    NotAdding(w, s, id);
  }

  lemma NotAdding(w: World, s: Step, id: nat)
    requires Over(w, id)
    ensures By(s).Some? && By(s).value < |w.calls| && w.calls[By(s).value].Adding? ==> w.calls[By(s).value].id != id
  {
  }

  lemma AnsweredStays(w: World, s: Step, id: nat)
    requires Answered(w, id)
    ensures Answered(Next(w, s), id)
  {
    OverStays(w, s, id);
  }

  lemma {:induction false} Lasts(steps: seq<Step>, worlds: seq<World>, k: nat, m: nat, id: nat)
    requires IsRun(steps, worlds) && k <= m <= |steps|
    ensures Over(worlds[k], id) ==> Over(worlds[m], id)
    ensures Spent(worlds[k], id) ==> Spent(worlds[m], id)
    ensures Answered(worlds[k], id) ==> Answered(worlds[m], id)
    decreases m - k
  {
    hide Over, Spent, Answered, Next;
    if k < m {
      Lasts(steps, worlds, k, m - 1, id);
      assert worlds[m - 1 + 1] == Next(worlds[m - 1], steps[m - 1]);
      if Over(worlds[m - 1], id) { OverStays(worlds[m - 1], steps[m - 1], id); }
      if Spent(worlds[m - 1], id) { SpentStays(worlds[m - 1], steps[m - 1], id); }
      if Answered(worlds[m - 1], id) { AnsweredStays(worlds[m - 1], steps[m - 1], id); }
    }
  }

  /** The late add of call `id` lands while the id of the job is free. */
  predicate LandsOnEmpty(w: World, s: Step, id: nat) {
    s.Lands? && s.i < |w.late| && w.late[s.i].LateAdd? && w.late[s.i].id == id && w.slot.None?
  }

  predicate AddsOnEmpty(w: World, s: Step, id: nat) {
    s.Add? && s.p < |w.calls| && w.calls[s.p].Adding? && w.calls[s.p].id == id && w.slot.None?
  }

  lemma MadeGrows(w: World, s: Step, id: nat)
    ensures id in Next(w, s).made <==> id in w.made || LandsOnEmpty(w, s, id) || AddsOnEmpty(w, s, id)
  {
  }

  lemma {:induction false} MadeHow(steps: seq<Step>, worlds: seq<World>, m: nat, id: nat)
    requires IsRun(steps, worlds) && m <= |steps|
    ensures id in worlds[m].made <==>
              exists j :: 0 <= j < m && (LandsOnEmpty(worlds[j], steps[j], id) || AddsOnEmpty(worlds[j], steps[j], id))
  {
    hide LandsOnEmpty, AddsOnEmpty, Next;
    if m > 0 {
      MadeHow(steps, worlds, m - 1, id);
      MadeGrows(worlds[m - 1], steps[m - 1], id);
      assert worlds[m - 1 + 1] == Next(worlds[m - 1], steps[m - 1]);
    }
  }

  lemma AddAnswers(w: World, s: Step, id: nat)
    requires Numbered(w) && AddsOnEmpty(w, s, id)
    ensures Answered(Next(w, s), id)
  {
  }

  lemma RejectedIsOver(w: World, p: nat)
    requires Numbered(w) && p < |w.calls| && w.calls[p].Rejected?
    ensures Over(w, w.calls[p].id) && !Answered(w, w.calls[p].id)
    ensures w.calls[p].trip != AtAdd ==> Spent(w, w.calls[p].id)
  {
  }

  /** An add that a call makes for itself never belongs to a call that is rejected. */
  lemma RejectedNeverAdds(steps: seq<Step>, worlds: seq<World>, k: nat, j: nat, p: nat)
    requires IsRun(steps, worlds) && k <= |steps| && j < |steps| && p < |worlds[k].calls|
              && worlds[k].calls[p].Rejected?
    ensures !AddsOnEmpty(worlds[j], steps[j], worlds[k].calls[p].id)
  {
    var id := worlds[k].calls[p].id;
    RunIsNumbered(steps, worlds, k);
    RunIsNumbered(steps, worlds, j);
    RejectedIsOver(worlds[k], p);
    hide Numbered, Answered, Spent, Next;
    assert worlds[j + 1] == Next(worlds[j], steps[j]);
    if AddsOnEmpty(worlds[j], steps[j], id) {
      if k <= j {
        Lasts(steps, worlds, k, j, id);
        NotAdding(worlds[j], steps[j], id);
      } else {
        AddAnswers(worlds[j], steps[j], id);
        Lasts(steps, worlds, j + 1, k, id);
      }
    }
  }

  /**
   * The deadline's message says that nothing was enqueued, and names the round trip. For a call rejected at getJob or
   * at getState that is true for good. A call rejected at its add makes a job, then or later, exactly when that add
   * lands while the id is free.
   */
  lemma RejectedCallMakesJobIff(steps: seq<Step>, worlds: seq<World>, k: nat, m: nat, p: nat)
    requires IsRun(steps, worlds) && k <= m <= |steps| && p < |worlds[k].calls| && worlds[k].calls[p].Rejected?
    ensures var id := worlds[k].calls[p].id;
            id in worlds[m].made <==>
              worlds[k].calls[p].trip == AtAdd && exists j :: 0 <= j < m && LandsOnEmpty(worlds[j], steps[j], id)
  {
    var id := worlds[k].calls[p].id;
    MadeHow(steps, worlds, m, id);
    if j :| 0 <= j < m && AddsOnEmpty(worlds[j], steps[j], id) {
      RejectedNeverAdds(steps, worlds, k, j, p);
    }
    RunIsNumbered(steps, worlds, k);
    RejectedIsOver(worlds[k], p);
    Lasts(steps, worlds, k, m, id);
    hide Numbered, LandsOnEmpty, AddsOnEmpty;
  }

  // ---- how long a job keeps the id -------------------------------------------------------------

  /** Redis carries out a remove: that of a call, or one whose call has stopped waiting. */
  predicate Clears(w: World, s: Step) {
    || (s.Remove? && s.p < |w.calls| && w.calls[s.p].Removing?)
    || (s.Lands? && s.i < |w.late| && w.late[s.i].LateRemove?)
  }

  predicate Holds(w: World, uid: nat) {
    w.slot.Some? && w.slot.value.uid == uid
  }

  /** While no worker takes a job, only a remove frees the id. */
  lemma StepKeepsId(w: World, s: Step, uid: nat)
    requires !IsActive(w.slot) && !s.Take?
    ensures !IsActive(Next(w, s).slot) && w.next <= Next(w, s).next
    ensures Holds(w, uid) ==> (Holds(Next(w, s), uid) <==> !Clears(w, s))
    ensures uid < w.next && !Holds(w, uid) ==> !Holds(Next(w, s), uid)
  {
  }

  lemma {:induction false} IdKept(steps: seq<Step>, worlds: seq<World>, k: nat, m: nat, uid: nat)
    requires IsRun(steps, worlds) && k <= m <= |steps|
    requires !IsActive(worlds[k].slot) && Holds(worlds[k], uid) && uid < worlds[k].next
    requires forall j :: k <= j < m ==> !steps[j].Take?
    ensures !IsActive(worlds[m].slot) && uid < worlds[m].next
    ensures Holds(worlds[m], uid) <==> forall j :: k <= j < m ==> !Clears(worlds[j], steps[j])
    decreases m - k
  {
    hide Holds, Clears, Next;
    if k < m {
      IdKept(steps, worlds, k, m - 1, uid);
      StepKeepsId(worlds[m - 1], steps[m - 1], uid);
      assert worlds[m - 1 + 1] == Next(worlds[m - 1], steps[m - 1]);
    }
  }

  /**
   * A job that a call has reported as enqueued, and that nobody is executing, still has the id when a worker next comes
   * exactly when no remove, of any call, has been carried out in between.
   */
  lemma EnqueuedKeepsIdIff(steps: seq<Step>, worlds: seq<World>, k: nat, m: nat, p: nat)
    requires IsRun(steps, worlds) && k < m <= |steps| && steps[k] == Add(p) && p < |worlds[k + 1].calls|
    requires worlds[k] != worlds[k + 1] && worlds[k + 1].calls[p].Enqueued? && !IsActive(worlds[k + 1].slot)
    requires forall j :: k < j < m ==> !steps[j].Take?
    ensures Holds(worlds[m], worlds[k + 1].calls[p].job.uid) <==> forall j :: k < j < m ==> !Clears(worlds[j], steps[j])
  {
    assert worlds[k + 1] == Next(worlds[k], steps[k]);
    RunIsSafe(steps, worlds, k + 1);
    IdKept(steps, worlds, k + 1, m, worlds[k + 1].calls[p].job.uid);
  }

  // ---- runs that show it -----------------------------------------------------------------------

  lemma IssuedThenGivenUp(w: World)
    requires w.slot.None? && w.calls == [Idle] && w.late == []
    ensures var id, t := w.begun, w.now;
            var w' := w.(begun := w.begun + 1);
            var w1, w2 := w'.(calls := [Looking(id, t)]), w'.(calls := [Adding(id, t, t)]);
            && Next(w, Begin(0)) == w1 && Next(w1, GetJob(0)) == w2
            && Next(w2, Deadline(0, true)) == w'.(calls := [Rejected(id, t, AtAdd)], late := [LateAdd(id, t)])
  {
  }

  lemma LandsAndRuns(w: World, id: nat, t: int)
    requires w.slot.None? && w.late == [LateAdd(id, t)] && w.running == {}
    ensures var w' := w.(late := [], next := w.next + 1, made := w.made + {id});
            && Next(w, Lands(0)) == w'.(slot := Some(Job(w.next, t, Waiting)))
            && Next(w'.(slot := Some(Job(w.next, t, Waiting))), Take)
               == w'.(slot := Some(Job(w.next, t, Active)), running := {w.next})
  {
  }

  /** The message is false of this run: the add times out, lands, and its job runs. */
  lemma RejectedAddMayLand() returns (steps: seq<Step>, worlds: seq<World>)
    ensures IsRun(steps, worlds) && |worlds| == 6
    ensures worlds[5].calls == [Rejected(0, 0, AtAdd)] && worlds[5].running == {0} && worlds[5].made == {0}
  {
    hide Next;
    steps := [Begin(0), GetJob(0), Deadline(0, true), Lands(0), Take];
    var w0 := World(0, 0, None, {}, [Idle], [], 0, {});
    var b := w0.(begun := 1);
    var w3 := b.(calls := [Rejected(0, 0, AtAdd)], late := [LateAdd(0, 0)]);
    var w4 := World(0, 1, Some(Job(0, 0, Waiting)), {}, [Rejected(0, 0, AtAdd)], [], 1, w0.made + {0});
    IssuedThenGivenUp(w0);
    LandsAndRuns(w3, 0, 0);
    worlds := [w0, b.(calls := [Looking(0, 0)]), b.(calls := [Adding(0, 0, 0)]), w3, w4,
               w4.(slot := Some(Job(0, 0, Active)), running := {0})];
  }

  /** A producer finds a leftover. */
  lemma SeesLeftover(w: World, p: nat)
    requires p < |w.calls| && w.calls[p] == Idle && w.slot.Some? && !IsActive(w.slot)
    ensures var id, b := w.begun, w.(begun := w.begun + 1);
            var w1, w2 := WithCall(b, p, Looking(id, w.now)), WithCall(b, p, Asking(id, w.now));
            && Next(w, Begin(p)) == w1 && Next(w1, GetJob(p)) == w2
            && Next(w2, GetState(p)) == WithCall(b, p, Removing(id, w.now))
  {
    var id, b := w.begun, w.(begun := w.begun + 1);
    assert WithCall(WithCall(b, p, Looking(id, w.now)), p, Asking(id, w.now)) == WithCall(b, p, Asking(id, w.now));
    assert WithCall(WithCall(b, p, Asking(id, w.now)), p, Removing(id, w.now)) == WithCall(b, p, Removing(id, w.now));
  }

  lemma ClearsAndAdds(w: World, p: nat, id: nat)
    requires p < |w.calls| && w.calls[p] == Removing(id, w.now) && w.slot.Some? && !IsActive(w.slot)
    ensures var job := Job(w.next, w.now, Waiting);
            var w1 := WithCall(w.(slot := None), p, Adding(id, w.now, w.now));
            && Next(w, Remove(p)) == w1
            && Next(w1, Add(p)) ==
               WithCall(w.(slot := Some(job), next := w.next + 1, made := w.made + {id}), p, Enqueued(id, w.now, job))
  {
    var w1 := WithCall(w.(slot := None), p, Adding(id, w.now, w.now));
  }

  /** A slower producer that saw the same leftover removes the reported job and adds its own. */
  lemma EnqueuedMayBeReplaced() returns (steps: seq<Step>, worlds: seq<World>)
    ensures IsRun(steps, worlds) && |worlds| == 11
    ensures |worlds[10].calls| == 2 && worlds[10].calls[1] == Enqueued(1, 1, Job(1, 1, Waiting))
    ensures worlds[10].slot == Some(Job(2, 1, Waiting)) && worlds[10].running == {}
  {
    hide Next;
    steps := [Begin(0), GetJob(0), GetState(0), Begin(1), GetJob(1), GetState(1), Remove(1), Add(1), Remove(0), Add(0)];
    var w0 := World(1, 1, Some(Job(0, 0, Completed)), {}, [Idle, Idle], [], 0, {});
    SeesLeftover(w0, 0);
    var b := w0.(begun := 1);
    var w1, w2, w3 := WithCall(b, 0, Looking(0, 1)), WithCall(b, 0, Asking(0, 1)), WithCall(b, 0, Removing(0, 1));
    SeesLeftover(w3, 1);
    var d := w3.(begun := 2);
    var w4, w5, w6 := WithCall(d, 1, Looking(1, 1)), WithCall(d, 1, Asking(1, 1)), WithCall(d, 1, Removing(1, 1));
    ClearsAndAdds(w6, 1, 1);
    var w7 := WithCall(w6.(slot := None), 1, Adding(1, 1, 1));
    var mine := Job(1, 1, Waiting);
    var w8 := WithCall(w6.(slot := Some(mine), next := 2, made := {} + {1}), 1, Enqueued(1, 1, mine));
    ClearsAndAdds(w8, 0, 0);
    var w9 := WithCall(w8.(slot := None), 0, Adding(0, 1, 1));
    var other := Job(2, 1, Waiting);
    var w10 := WithCall(w8.(slot := Some(other), next := 3, made := w8.made + {0}), 0, Enqueued(0, 1, other));
    worlds := [w0, w1, w2, w3, w4, w5, w6, w7, w8, w9, w10];
  }

  lemma GivesUpRemoving(w: World, id: nat)
    requires w.calls == [Removing(id, w.now)] && w.late == [] && w.slot.Some? && w.slot.value.state == Waiting
    requires w.running == {}
    ensures var uid := w.slot.value.uid;
            var w1 := w.(calls := [Adding(id, w.now, w.now)], late := [LateRemove]);
            var w2 := w1.(slot := Some(w.slot.value.(state := Active)), running := {uid});
            && Next(w, Deadline(0, true)) == w1 && Next(w1, Take) == w2
            && Next(w2, Finish(true, false)) == w1.(slot := None)
  {
    assert {w.slot.value.uid} - {w.slot.value.uid} == {};
  }

  lemma AddsThenLoses(w: World, id: nat)
    requires w.calls == [Adding(id, w.now, w.now)] && w.late == [LateRemove] && w.slot == None
    ensures var job := Job(w.next, w.now, Waiting);
            var w1 := w.(slot := Some(job), next := w.next + 1, made := w.made + {id},
                         calls := [Enqueued(id, w.now, job)]);
            Next(w, Add(0)) == w1 && Next(w1, Lands(0)) == w1.(slot := None, late := [])
  {
  }

  /** With one producer on its own: its remove, given up, lands after its add, and the reported job is simply gone. */
  lemma EnqueuedMayVanish() returns (steps: seq<Step>, worlds: seq<World>)
    ensures IsRun(steps, worlds) && |worlds| == 9
    ensures worlds[8].calls == [Enqueued(0, 1, Job(1, 1, Waiting))]
    ensures worlds[8].slot == None && worlds[8].running == {} && worlds[8].late == []
  {
    hide Next;
    steps := [Begin(0), GetJob(0), GetState(0), Deadline(0, true), Take, Finish(true, false), Add(0), Lands(0)];
    var w0 := World(1, 1, Some(Job(0, 0, Waiting)), {}, [Idle], [], 0, {});
    var b := w0.(begun := 1);
    SeesLeftover(w0, 0);
    var w3 := b.(calls := [Removing(0, 1)]);
    assert WithCall(b, 0, Looking(0, 1)) == b.(calls := [Looking(0, 1)]);
    assert WithCall(b, 0, Asking(0, 1)) == b.(calls := [Asking(0, 1)]);
    assert WithCall(b, 0, Removing(0, 1)) == w3;
    GivesUpRemoving(w3, 0);
    var w4 := w3.(calls := [Adding(0, 1, 1)], late := [LateRemove]);
    var w5 := w4.(slot := Some(Job(0, 0, Active)), running := {0});
    var w6 := w4.(slot := None);
    AddsThenLoses(w6, 0);
    var job := Job(1, 1, Waiting);
    var w7 := w6.(slot := Some(job), next := 2, made := {} + {0}, calls := [Enqueued(0, 1, job)]);
    worlds := [w0, b.(calls := [Looking(0, 1)]), b.(calls := [Asking(0, 1)]), w3, w4, w5, w6, w7,
               w7.(slot := None, late := [])];
  }
}
