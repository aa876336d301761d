/**
 * What a call of enqueueWithQueue has seen when it ends as it does (backend/src/jobs/queues.js): the way through its
 * round trips, read off the id at the moment each of them was answered.
 */
module EnqueueLaws {
  import opened Common
  import opened SingletonEnqueue

  /** The answer of getState: the id holds a job, and it is active. */
  predicate FoundActive(w: World) {
    w.slot.Some? && w.slot.value.state == Active
  }

  /** In this step call `id` of producer `p` asks getJob and the id is free. */
  predicate LooksAndIsFree(w: World, s: Step, p: nat, id: nat) {
    p < |w.calls| && s == GetJob(p) && w.calls[p].Looking? && w.calls[p].id == id && w.slot == None
  }

  /** In this step call `id` of producer `p` asks getState. */
  predicate AsksState(w: World, s: Step, p: nat, id: nat) {
    p < |w.calls| && s == GetState(p) && w.calls[p].Asking? && w.calls[p].id == id
  }

  // ---- one step -------------------------------------------------------------------------------

  /** A call is held exactly when its getState finds the job active, and reports that job. */
  lemma HeldIff(w: World, s: Step, p: nat)
    requires p < |w.calls|
    ensures |Next(w, s).calls| == |w.calls|
    ensures var c, c' := w.calls[p], Next(w, s).calls[p];
            && (c != c' && c'.Held? <==> s == GetState(p) && c.Asking? && FoundActive(w))
            && (c != c' && c'.Held? ==> c' == Held(c.id, c.at, w.slot.value.uid))
  {
  }

  /** It goes on to the remove exactly when getState finds anything else, and to the add at once if the id is free. */
  lemma GoesOnIff(w: World, s: Step, p: nat)
    requires p < |w.calls|
    ensures |Next(w, s).calls| == |w.calls|
    ensures var c, c' := w.calls[p], Next(w, s).calls[p];
            && (c != c' && c'.Removing? <==> s == GetState(p) && c.Asking? && !FoundActive(w))
            && (c != c' && c'.Asking? <==> s == GetJob(p) && c.Looking? && w.slot.Some?)
            && (c != c' && c'.Adding? <==>
                  || (s == GetJob(p) && c.Looking? && w.slot.None?)
                  || (c.Removing? && (s == Remove(p) || s == Deadline(p, true) || s == Deadline(p, false))))
            && (c != c' && (c'.Asking? || c'.Removing? || c'.Adding?) ==> c'.id == c.id && c'.at == c.at)
            && (c != c' && c'.Adding? ==> c'.issued == w.now)
  {
  }

  /**
   * The add returns the job that holds the id, or a new one, and the call ends by its timestamp: an error if it is
   * older than the call. An error that names a round trip is a deadline there; a new call starts only after the last.
   */
  lemma EndsIff(w: World, s: Step, p: nat)
    requires p < |w.calls|
    ensures |Next(w, s).calls| == |w.calls|
    ensures var c, c' := w.calls[p], Next(w, s).calls[p];
            && (c != c' && (c'.Enqueued? || c'.NoOp?) <==> s == Add(p) && c.Adding?)
            && (c != c' && (c'.Enqueued? || c'.NoOp?) ==>
                  && Next(w, s).slot == Some(c'.job) && c'.id == c.id && c'.at == c.at
                  && (w.slot.Some? ==> w.slot == Some(c'.job))
                  && (w.slot.None? ==> c'.job == Job(w.next, c.issued, Waiting))
                  && (c'.NoOp? <==> c'.job.timestamp < c'.at))
            && (c != c' && c'.Rejected? ==> c'.id == c.id && c'.at == c.at)
            && (c != c' && c'.Rejected? <==>
                  (s == Deadline(p, true) || s == Deadline(p, false)) && (c.Looking? || c.Asking? || c.Adding?))
            && (c != c' && c'.Rejected? && c'.trip == AtGetJob ==> c.Looking?)
            && (c != c' && c'.Rejected? && c'.trip == AtGetState ==> c.Asking?)
            && (c != c' && c'.Rejected? && c'.trip == AtAdd ==> c.Adding?)
            && (c != c' && c'.Looking? <==>
                  s == Begin(p) && !(c.Looking? || c.Asking? || c.Removing? || c.Adding?))
            && (c != c' && c'.Looking? ==> c'.id == w.begun && c'.at == w.now)
            && (c != c' ==> c' != Idle)
  {
  }

  /** The states a job goes through: taken, finished and kept, dead worker, come due, lost from its set. */
  lemma JobGoesThrough(w: World, job: Job)
    requires w.slot == Some(job)
    ensures job.state == Waiting ==> Next(w, Take).slot == Some(job.(state := Active))
    ensures job.state == Active ==>
              && Next(w, Finish(true, true)).slot == Some(job.(state := Completed))
              && Next(w, Finish(false, true)).slot == Some(job.(state := Failed))
              && Next(w, Finish(true, false)).slot == None == Next(w, Finish(false, false)).slot
              && Next(w, WorkerDies).slot == Some(job.(state := Waiting))
    ensures job.state == Delayed ==> Next(w, Promote).slot == Some(job.(state := Waiting))
    ensures job.state != Active ==> Next(w, Corrupt).slot == Some(job.(state := Unknown))
    ensures job.state != Waiting ==> Next(w, Take) == w
  {
  }

  // ---- whole runs -----------------------------------------------------------------------------

  /** Before step `k`, call `id` found the id free at getJob, or a job that was not active at getState. */
  ghost predicate FoundClear(steps: seq<Step>, worlds: seq<World>, k: nat, p: nat, id: nat)
    requires k <= |steps| < |worlds|
  {
    exists j :: 0 <= j < k && ClearAt(worlds[j], steps[j], p, id)
  }

  predicate ClearAt(w: World, s: Step, p: nat, id: nat) {
    LooksAndIsFree(w, s, p, id) || (AsksState(w, s, p, id) && !FoundActive(w))
  }

  ghost predicate FoundIt(steps: seq<Step>, worlds: seq<World>, k: nat, p: nat, id: nat, uid: nat)
    requires k <= |steps| < |worlds|
  {
    exists j :: 0 <= j < k && AsksState(worlds[j], steps[j], p, id) && FoundActive(worlds[j])
                && worlds[j].slot.value.uid == uid && uid in worlds[j].running
  }

  /** A call that has been let past the job it may have found: on its way to the add, or answered there. */
  predicate LetPast(c: Call) {
    c.Removing? || c.Adding? || c.Enqueued? || c.NoOp? || (c.Rejected? && c.trip == AtAdd)
  }

  lemma WayStep(w: World, s: Step, p: nat)
    requires p < |w.calls|
    ensures |Next(w, s).calls| == |w.calls|
    ensures var c, c' := w.calls[p], Next(w, s).calls[p];
            && (LetPast(c') ==> (LetPast(c) && c.id == c'.id) || ClearAt(w, s, p, c'.id))
            && (c'.Held? && c != c' ==>
                  AsksState(w, s, p, c'.id) && FoundActive(w) && w.slot.value.uid == c'.uid)
  {
  }

  lemma CallsStay(w: World, s: Step)
    ensures |Next(w, s).calls| == |w.calls|
  {
  }

  lemma ActiveIsRun(w: World)
    requires Safe(w) && FoundActive(w)
    ensures w.slot.value.uid in w.running
  {
  }

  /**
   * In every run, a call has come to its remove, its add or an answer of its add only if it found the id free or the
   * job not active; and one that is held was shown, at its getState, the active job it reports, while that ran.
   */
  lemma {:induction false} WayThrough(steps: seq<Step>, worlds: seq<World>, k: nat, p: nat)
    requires IsRun(steps, worlds) && k <= |steps| && p < |worlds[k].calls|
    ensures LetPast(worlds[k].calls[p]) ==> FoundClear(steps, worlds, k, p, worlds[k].calls[p].id)
    ensures worlds[k].calls[p].Held? ==>
              FoundIt(steps, worlds, k, p, worlds[k].calls[p].id, worlds[k].calls[p].uid)
  {
    hide Next, AsksState, ClearAt, Safe, FoundActive;
    if k > 0 {
      var w, s := worlds[k - 1], steps[k - 1];
      assert worlds[k - 1 + 1] == Next(w, s);
      RunIsSafe(steps, worlds, k - 1);
      CallsStay(w, s);
      WayThrough(steps, worlds, k - 1, p);
      WayStep(w, s, p);
      if FoundActive(w) {
        ActiveIsRun(w);
      }
    }
  }

  predicate IsAdding(w: World, p: nat, id: nat) {
    p < |w.calls| && w.calls[p].Adding? && w.calls[p].id == id
  }

  lemma LateStep(w: World, s: Step, x: Late)
    requires x in Next(w, s).late && x.LateAdd?
    ensures x in w.late || exists p :: IsAdding(w, p, x.id)
  {
    if By(s).Some? && By(s).value < |w.calls| {
      assert w.calls[By(s).value].Adding? ==> IsAdding(w, By(s).value, w.calls[By(s).value].id);
    }
  }

  lemma MadeStep(w: World, s: Step, id: nat)
    requires id in Next(w, s).made && id !in w.made
    ensures (exists x :: x in w.late && x.LateAdd? && x.id == id) || exists p :: IsAdding(w, p, id)
  {
    if By(s).Some? && By(s).value < |w.calls| {
      assert w.calls[By(s).value].Adding? ==> IsAdding(w, By(s).value, w.calls[By(s).value].id);
    }
  }

  ghost predicate SomeFoundClear(steps: seq<Step>, worlds: seq<World>, k: nat, id: nat)
    requires k <= |steps| < |worlds|
  {
    exists p :: FoundClear(steps, worlds, k, p, id)
  }

  lemma ClearStays(steps: seq<Step>, worlds: seq<World>, k: nat, id: nat)
    requires 0 < k <= |steps| < |worlds| && SomeFoundClear(steps, worlds, k - 1, id)
    ensures SomeFoundClear(steps, worlds, k, id)
  {
    var p :| FoundClear(steps, worlds, k - 1, p, id);
    assert FoundClear(steps, worlds, k, p, id);
  }

  lemma AddingIsClear(steps: seq<Step>, worlds: seq<World>, k: nat, id: nat)
    requires IsRun(steps, worlds) && k <= |steps| && exists p :: IsAdding(worlds[k], p, id)
    ensures SomeFoundClear(steps, worlds, k, id)
  {
    var p :| IsAdding(worlds[k], p, id);
    WayThrough(steps, worlds, k, p);
  }

  /**
   * So no call makes a job past one that it saw running: whatever happens, then or later, if call `id` has made a job,
   * or an add of it is still on its way, it had found the id free or the job not active.
   */
  lemma {:induction false} MadeOnlyPastInactive(steps: seq<Step>, worlds: seq<World>, k: nat, id: nat)
    requires IsRun(steps, worlds) && k <= |steps|
    requires id in worlds[k].made || exists x :: x in worlds[k].late && x.LateAdd? && x.id == id
    ensures SomeFoundClear(steps, worlds, k, id)
  {
    hide Next, SomeFoundClear, IsAdding;
    if k > 0 {
      var w, s := worlds[k - 1], steps[k - 1];
      assert worlds[k - 1 + 1] == Next(w, s);
      if id in worlds[k].made && id !in w.made {
        MadeStep(w, s, id);
      }
      if x :| x in worlds[k].late && x.LateAdd? && x.id == id {
        LateStep(w, s, x);
      }
      if exists p :: IsAdding(w, p, id) {
        AddingIsClear(steps, worlds, k - 1, id);
      } else {
        MadeOnlyPastInactive(steps, worlds, k - 1, id);
      }
      ClearStays(steps, worlds, k, id);
    }
  }

  lemma HeldIsSpent(w: World, p: nat)
    requires Numbered(w) && p < |w.calls| && w.calls[p].Held?
    ensures Spent(w, w.calls[p].id)
  {
  }

  /** A call that is held never makes a job, then or later. */
  lemma HeldMakesNone(steps: seq<Step>, worlds: seq<World>, k: nat, m: nat, p: nat)
    requires IsRun(steps, worlds) && k <= m <= |steps| && p < |worlds[k].calls| && worlds[k].calls[p].Held?
    ensures worlds[k].calls[p].id !in worlds[m].made
  {
    RunIsNumbered(steps, worlds, k);
    HeldIsSpent(worlds[k], p);
    Lasts(steps, worlds, k, m, worlds[k].calls[p].id);
  }
}
