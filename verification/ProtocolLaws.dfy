/**
 * When a process of the migration protocol ends as it does (backend/src/db/migrate.js, runMigrations and
 * waitForMigrations): the outcomes of an owner and of a waiter, step by step and over whole runs.
 */
module ProtocolLaws {
  import opened Common
  import opened MigrationProtocol

  predicate IsPoll(s: Step, p: nat) {
    s == Poll(p, true) || s == Poll(p, false)
  }

  predicate IsAdvance(s: Step, p: nat) {
    s == Advance(p, true) || s == Advance(p, false)
  }

  /**
   * A process that starts goes on to apply, with the applied set as it is, if it owns the migrations, and to wait if it
   * does not.
   */
  lemma StartsIff(c: Cast, w: World, s: Step, p: nat)
    requires GoodCast(c) && |w.at| == |c.known| && p < |w.at|
    ensures |Next(c, w, s).at| == |w.at|
    ensures var ph, ph' := w.at[p], Next(c, w, s).at[p];
            && (ph == Down && ph' != Down <==> ph == Down && s == Boot(p))
            && (ph == Down && ph' != Down ==>
                  if c.owner[p] then ph'.Applying? && ph'.next == 0 && forall x :: x in ph'.snapshot <==> x in w.rows
                  else ph' == Polling(0, false))
            && (ph' == Down && ph != Down <==> ph != Down && s == Crash(p))
  {
  }

  /**
   * An owner is done when the registry is at its end; fails when up() fails on an entry its snapshot lacks; conflicts
   * when that entry is in the table all the same; and otherwise writes it, once, in the same step.
   */
  lemma OwnerEndsIff(c: Cast, w: World, s: Step, p: nat)
    requires GoodCast(c) && |w.at| == |c.known| && p < |w.at| && w.at[p].Applying?
    ensures |Next(c, w, s).at| == |w.at|
    ensures var ph, w' := w.at[p], Next(c, w, s);
            var ph' := w'.at[p];
            && (ph' == Applied <==> IsAdvance(s, p) && ph.next >= c.known[p])
            && (ph' == UpFailed <==>
                  s == Advance(p, false) && ph.next < c.known[p] && c.registry[ph.next] !in ph.snapshot)
            && (ph' == Conflict <==>
                  && s == Advance(p, true) && ph.next < c.known[p] && c.registry[ph.next] !in ph.snapshot
                  && c.registry[ph.next] in w.rows)
            && (ph' == Applying(ph.snapshot, ph.next + 1) && w'.rows == w.rows <==>
                  IsAdvance(s, p) && ph.next < c.known[p] && c.registry[ph.next] in ph.snapshot)
            && (ph' == Applying(ph.snapshot, ph.next + 1) && w'.rows != w.rows <==>
                  && s == Advance(p, true) && ph.next < c.known[p] && c.registry[ph.next] !in ph.snapshot
                  && c.registry[ph.next] !in w.rows)
            && (ph' == Applying(ph.snapshot, ph.next + 1) && w'.rows != w.rows ==>
                  w'.rows == w.rows + [c.registry[ph.next]] && w'.commits == w.commits + [c.registry[ph.next]])
  {
    var ph := w.at[p];
    if ph.next < c.known[p] {
      assert (w.rows + [c.registry[ph.next]])[|w.rows|] == c.registry[ph.next];
    }
  }

  /** In this step process `p` looks an id up, and it is not in the table. */
  predicate MissesAt(c: Cast, w: World, s: Step, p: nat) {
    && p < |w.at| && p < |c.known| && c.known[p] <= |c.registry| && IsPoll(s, p)
    && w.at[p].Polling? && w.at[p].next < c.known[p] && c.registry[w.at[p].next] !in w.rows
  }

  /**
   * A waiter returns at the end of a pass that missed nothing, late or not; it gives up at the end of one that did if
   * it is late, and then only; and otherwise goes on to the next id or the next pass.
   */
  lemma WaiterEndsIff(c: Cast, w: World, s: Step, p: nat)
    requires GoodCast(c) && |w.at| == |c.known| && p < |w.at| && w.at[p].Polling?
    ensures |Next(c, w, s).at| == |w.at|
    ensures var ph, ph' := w.at[p], Next(c, w, s).at[p];
            && (ph' == Ready <==> IsPoll(s, p) && ph.next >= c.known[p] && !ph.missing)
            && (ph' == TimedOut <==> s == Poll(p, true) && ph.next >= c.known[p] && ph.missing)
            && (s == Poll(p, false) && ph.next >= c.known[p] && ph.missing ==> ph' == Polling(0, false))
            && (IsPoll(s, p) && ph.next < c.known[p] ==>
                  ph' == Polling(ph.next + 1, ph.missing || MissesAt(c, w, s, p)))
            && (!IsPoll(s, p) && s != Crash(p) ==> ph' == ph)
  {
  }

  lemma MissingStep(c: Cast, w: World, s: Step, p: nat)
    requires GoodCast(c) && |w.at| == |c.known| && p < |w.at|
    ensures |Next(c, w, s).at| == |w.at|
    ensures var ph, ph' := w.at[p], Next(c, w, s).at[p];
            && (ph'.Polling? && ph'.missing ==> (ph.Polling? && ph.missing) || MissesAt(c, w, s, p))
            && (ph' == TimedOut ==> ph == TimedOut || (ph.Polling? && ph.missing && s == Poll(p, true)))
  {
  }

  ghost predicate Missed(c: Cast, steps: seq<Step>, worlds: seq<World>, k: nat, p: nat)
    requires k <= |steps| < |worlds|
  {
    exists j :: 0 <= j < k && MissesAt(c, worlds[j], steps[j], p)
  }

  ghost predicate WasLate(steps: seq<Step>, k: nat, p: nat)
    requires k <= |steps|
  {
    exists j :: 0 <= j < k && steps[j] == Poll(p, true)
  }

  /** In every run, a waiter that has given up did so on a late poll, after it had looked for an id and not found it. */
  lemma {:induction false} GivesUpOnlyLate(
    c: Cast, rows0: seq<string>, steps: seq<Step>, worlds: seq<World>, k: nat, p: nat)
    requires IsRun(c, rows0, steps, worlds) && k <= |steps| && p < |worlds[k].at|
    ensures worlds[k].at[p].Polling? && worlds[k].at[p].missing ==> Missed(c, steps, worlds, k, p)
    ensures worlds[k].at[p] == TimedOut ==> Missed(c, steps, worlds, k, p) && WasLate(steps, k, p)
  {
    if k > 0 {
      assert RunStep(c, steps, worlds, k - 1);
      MissingStep(c, worlds[k - 1], steps[k - 1], p);
      hide Next, MissesAt;
      GivesUpOnlyLate(c, rows0, steps, worlds, k - 1, p);
    }
  }
}
