/**
 * Migrations among processes (backend/src/db/migrate.js, runMigrations, waitForMigrations, migrationsOwner; chosen
 * between in backend/src/models/database.js, bootstrapSchema). Owners read the applied set once and then apply one
 * migration per transaction; waiters poll. Processes of an older release know only the first part of the registry.
 * Any step may be that of any process; any process may crash and start again.
 */
module MigrationProtocol {
  import opened Common

  /** What the processes are: the newest registry, and for each process whether it owns and how much it knows. */
  datatype Cast = Cast(registry: seq<string>, owner: seq<bool>, known: seq<nat>)

  ghost predicate GoodCast(c: Cast) {
    && Distinct(c.registry) && |c.owner| == |c.known|
    && forall p :: 0 <= p < |c.known| ==> c.known[p] <= |c.registry|
  }

  /**
   * Applying: with the applied set as it was read, about to look at entry `next`.
   * Polling: in a pass over the expected ids, at entry `next`; `missing` says whether the pass has missed one.
   */
  datatype Phase =
    | Down
    | Applying(snapshot: set<string>, next: nat)
    | Applied
    | Conflict
    | UpFailed
    | Polling(next: nat, missing: bool)
    | Ready
    | TimedOut

  /** The rows of schema_migrations, and the up() calls whose transaction committed. */
  datatype World = World(rows: seq<string>, commits: seq<string>, at: seq<Phase>)

  datatype Step =
    | Boot(p: nat)
    | Advance(p: nat, upOk: bool)
    | Poll(p: nat, late: bool)
    | Crash(p: nat)

  /** Take up the next entry: skip it if the snapshot has it, else run up() and insert the row in one transaction. */
  function Owned(c: Cast, w: World, p: nat, upOk: bool): World
    requires p < |w.at| == |c.known| && w.at[p].Applying? && c.known[p] <= |c.registry|
  {
    var ph := w.at[p];
    if ph.next >= c.known[p] then w.(at := w.at[p := Applied])
    else
      var id := c.registry[ph.next];
      var on := w.at[p := Applying(ph.snapshot, ph.next + 1)];
      if id in ph.snapshot then w.(at := on)
      else if !upOk then w.(at := w.at[p := UpFailed])
      else if id in w.rows then w.(at := w.at[p := Conflict])
      else World(w.rows + [id], w.commits + [id], on)
  }

  /** Look up one expected id, or end the pass: return, give up if it is late, or start another pass. */
  function Polled(c: Cast, w: World, p: nat, late: bool): World
    requires p < |w.at| == |c.known| && w.at[p].Polling? && c.known[p] <= |c.registry|
  {
    var ph := w.at[p];
    var ph' :=
      if ph.next < c.known[p] then Polling(ph.next + 1, ph.missing || c.registry[ph.next] !in w.rows)
      else if !ph.missing then Ready
      else if late then TimedOut
      else Polling(0, false);
    w.(at := w.at[p := ph'])
  }

  /** One step; a step that its process is not ready for does nothing. */
  function Next(c: Cast, w: World, s: Step): World
    requires |w.at| == |c.known| == |c.owner| && forall p :: 0 <= p < |c.known| ==> c.known[p] <= |c.registry|
  {
    if s.p >= |w.at| then w
    else
      match s
      case Boot(p) =>
        if !w.at[p].Down? then w
        else w.(at := w.at[p := if c.owner[p] then Applying(set x | x in w.rows, 0) else Polling(0, false)])
      case Advance(p, upOk) => if w.at[p].Applying? then Owned(c, w, p, upOk) else w
      case Poll(p, late) => if w.at[p].Polling? then Polled(c, w, p, late) else w
      case Crash(p) => w.(at := w.at[p := Down])
  }

  // ---- what every step keeps ------------------------------------------------------------------

  ghost predicate PrefixApplied(registry: seq<string>, rows: seq<string>, n: nat)
    requires n <= |registry|
  {
    forall i :: 0 <= i < n ==> registry[i] in rows
  }

  /** No registered migration is applied before an earlier one. */
  ghost predicate InRegistryOrder(registry: seq<string>, rows: seq<string>) {
    forall i, j :: 0 <= i < j < |registry| && registry[j] in rows ==> registry[i] in rows
  }

  /** What a process has learnt is true of the table. */
  ghost predicate Informed(c: Cast, rows: seq<string>, p: nat, ph: Phase)
    requires GoodCast(c) && p < |c.known|
  {
    match ph
    case Applying(snapshot, next) =>
      && next <= c.known[p] && snapshot <= (set x | x in rows)
      && PrefixApplied(c.registry, rows, next)
    case Applied => PrefixApplied(c.registry, rows, c.known[p])
    case Polling(next, missing) => next <= c.known[p] && (!missing ==> PrefixApplied(c.registry, rows, next))
    case Ready => PrefixApplied(c.registry, rows, c.known[p])
    case _ => true
  }

  /** `rows0` is the table before the first process started. */
  ghost predicate Safe(c: Cast, rows0: seq<string>, w: World) {
    && GoodCast(c) && |w.at| == |c.known|
    && w.rows == rows0 + w.commits && Distinct(w.rows)
    && InRegistryOrder(c.registry, w.rows)
    && forall p :: 0 <= p < |w.at| ==> Informed(c, w.rows, p, w.at[p])
  }

  lemma RowsGrow(c: Cast, rows: seq<string>, id: string, p: nat, ph: Phase)
    requires GoodCast(c) && p < |c.known| && Informed(c, rows, p, ph)
    ensures Informed(c, rows + [id], p, ph)
  {
  }

  lemma CommitIsSafe(c: Cast, rows: seq<string>, n: nat)
    requires GoodCast(c) && Distinct(rows) && InRegistryOrder(c.registry, rows)
    requires n < |c.registry| && PrefixApplied(c.registry, rows, n) && c.registry[n] !in rows
    ensures Distinct(rows + [c.registry[n]]) && InRegistryOrder(c.registry, rows + [c.registry[n]])
    ensures PrefixApplied(c.registry, rows + [c.registry[n]], n + 1)
  {
  }

  lemma OwnedIsSafe(c: Cast, rows0: seq<string>, w: World, p: nat, upOk: bool)
    requires Safe(c, rows0, w) && p < |w.at| && w.at[p].Applying?
    ensures Safe(c, rows0, Owned(c, w, p, upOk))
  {
    var w', n := Owned(c, w, p, upOk), w.at[p].next;
    if n < c.known[p] && w'.rows != w.rows {
      hide InRegistryOrder;
      var id := c.registry[n];
      CommitIsSafe(c, w.rows, n);
      forall q | 0 <= q < |w.at|
        ensures Informed(c, w'.rows, q, w'.at[q])
      {
        RowsGrow(c, w.rows, id, q, w.at[q]);
      }
      assert w.rows + [id] == rows0 + (w.commits + [id]);
    }
  }

  lemma NextIsSafe(c: Cast, rows0: seq<string>, w: World, s: Step)
    requires Safe(c, rows0, w)
    ensures Safe(c, rows0, Next(c, w, s))
  {
    hide InRegistryOrder;
    if s.Advance? && s.p < |w.at| && w.at[s.p].Applying? {
      OwnedIsSafe(c, rows0, w, s.p, s.upOk);
    }
  }

  // ---- runs -----------------------------------------------------------------------------------

  /** Every process is down and nothing has been committed yet. */
  ghost predicate Begins(c: Cast, rows0: seq<string>, w: World) {
    && GoodCast(c) && Distinct(rows0) && InRegistryOrder(c.registry, rows0)
    && w.rows == rows0 && w.commits == [] && |w.at| == |c.known|
    && forall p :: 0 <= p < |w.at| ==> w.at[p] == Down
  }

  ghost predicate IsRun(c: Cast, rows0: seq<string>, steps: seq<Step>, worlds: seq<World>) {
    && |worlds| == |steps| + 1 && Begins(c, rows0, worlds[0])
    && forall k :: 0 <= k < |steps| ==> RunStep(c, steps, worlds, k)
  }

  ghost predicate RunStep(c: Cast, steps: seq<Step>, worlds: seq<World>, k: nat)
    requires GoodCast(c) && k < |steps| && |worlds| == |steps| + 1
  {
    |worlds[k].at| == |c.known| && worlds[k + 1] == Next(c, worlds[k], steps[k])
  }

  /**
   * Any number of owners and waiters, crashing and restarting at will: each up() commits at most once and never for
   * what was applied before; the applied part of the registry is always its beginning; an owner is done, and a waiter
   * returns, only when everything it knows of is applied.
   */
  lemma {:induction false} RunIsSafe(c: Cast, rows0: seq<string>, steps: seq<Step>, worlds: seq<World>, k: nat)
    requires IsRun(c, rows0, steps, worlds) && k <= |steps|
    ensures Safe(c, rows0, worlds[k])
  {
    if k > 0 {
      RunIsSafe(c, rows0, steps, worlds, k - 1);
      assert RunStep(c, steps, worlds, k - 1);
      NextIsSafe(c, rows0, worlds[k - 1], steps[k - 1]);
    }
  }

  lemma CommitsAreOnce(c: Cast, rows0: seq<string>, steps: seq<Step>, worlds: seq<World>, k: nat)
    requires IsRun(c, rows0, steps, worlds) && k <= |steps|
    ensures Distinct(worlds[k].commits) && forall id :: id in worlds[k].commits ==> id !in rows0
  {
    RunIsSafe(c, rows0, steps, worlds, k);
    var rows, commits := worlds[k].rows, worlds[k].commits;
    assert forall i :: 0 <= i < |commits| ==> rows[|rows0| + i] == commits[i];
    assert forall i :: 0 <= i < |rows0| ==> rows[i] == rows0[i];
  }

  /** The applied registered ids are exactly the first so many. */
  lemma AppliedIsPrefix(registry: seq<string>, rows: seq<string>) returns (n: nat)
    requires InRegistryOrder(registry, rows)
    ensures n <= |registry| && forall i :: 0 <= i < |registry| ==> (registry[i] in rows <==> i < n)
  {
    n := 0;
    while n < |registry| && registry[n] in rows
      invariant n <= |registry| && forall i :: 0 <= i < n ==> registry[i] in rows
    {
      n := n + 1;
    }
  }

  // ---- who never conflicts --------------------------------------------------------------------

  /** At most one process is in the middle of applying. */
  ghost predicate OneOwner(w: World) {
    forall p, q :: 0 <= p < q < |w.at| ==> !(w.at[p].Applying? && w.at[q].Applying?)
  }

  /** Only owners apply: the others are sent to wait. */
  ghost predicate OwnersApply(c: Cast, w: World) {
    |c.owner| == |w.at| && forall p :: 0 <= p < |w.at| && w.at[p].Applying? ==> c.owner[p]
  }

  /** No two owners both know of a migration that was not applied from the beginning. */
  ghost predicate NothingShared(c: Cast, rows0: seq<string>)
    requires GoodCast(c)
  {
    forall p: nat, q: nat, i: nat :: p < q < |c.owner| && c.owner[p] && c.owner[q] ==>
      (i < c.known[p] && i < c.known[q] ==> c.registry[i] in rows0)
  }

  /** Of what a process has yet to apply, nothing has been applied behind its back. */
  ghost predicate UpToDate(c: Cast, w: World)
    requires GoodCast(c) && |w.at| == |c.known|
  {
    forall p: nat, i: nat :: p < |w.at| && w.at[p].Applying? && w.at[p].next <= i < c.known[p] ==>
      (c.registry[i] in w.rows ==> c.registry[i] in w.at[p].snapshot)
  }

  ghost predicate NoConflict(w: World) {
    forall p :: 0 <= p < |w.at| ==> !w.at[p].Conflict?
  }

  lemma OwnedStaysCurrent(c: Cast, rows0: seq<string>, w: World, p: nat, upOk: bool)
    requires Safe(c, rows0, w) && UpToDate(c, w) && NoConflict(w)
    requires OneOwner(w) || (OwnersApply(c, w) && NothingShared(c, rows0))
    requires p < |w.at| && w.at[p].Applying?
    ensures var w' := Owned(c, w, p, upOk); UpToDate(c, w') && NoConflict(w')
  {
    var w', n := Owned(c, w, p, upOk), w.at[p].next;
    hide InRegistryOrder, Informed;
    assert forall id :: id in rows0 ==> id in w.rows;
    forall q: nat, i: nat | q < |w.at| && w'.at[q].Applying? && w'.at[q].next <= i < c.known[q]
      ensures c.registry[i] in w'.rows ==> c.registry[i] in w'.at[q].snapshot
    {
    }
  }

  lemma NextStaysCurrent(c: Cast, rows0: seq<string>, w: World, s: Step)
    requires Safe(c, rows0, w) && UpToDate(c, w) && NoConflict(w)
    requires OneOwner(w) || (OwnersApply(c, w) && NothingShared(c, rows0))
    ensures Safe(c, rows0, Next(c, w, s)) && UpToDate(c, Next(c, w, s)) && NoConflict(Next(c, w, s))
  {
    NextIsSafe(c, rows0, w, s);
    hide InRegistryOrder, Informed, OwnersApply, OneOwner, NothingShared;
    if s.Advance? && s.p < |w.at| && w.at[s.p].Applying? {
      OwnedStaysCurrent(c, rows0, w, s.p, s.upOk);
    }
  }

  /** If no two owners ever apply at the same time, no process ever hits a conflict. */
  lemma {:induction false} SingleOwnerNeverConflicts(
    c: Cast, rows0: seq<string>, steps: seq<Step>, worlds: seq<World>, k: nat)
    requires IsRun(c, rows0, steps, worlds) && k <= |steps|
    requires forall i :: 0 <= i < k ==> OneOwner(worlds[i])
    ensures Safe(c, rows0, worlds[k]) && UpToDate(c, worlds[k]) && NoConflict(worlds[k])
  {
    if k > 0 {
      SingleOwnerNeverConflicts(c, rows0, steps, worlds, k - 1);
      assert RunStep(c, steps, worlds, k - 1);
      NextStaysCurrent(c, rows0, worlds[k - 1], steps[k - 1]);
    }
  }

  /** Nor does it if owners share nothing that has yet to be applied. */
  lemma {:induction false} NothingSharedNeverConflicts(
    c: Cast, rows0: seq<string>, steps: seq<Step>, worlds: seq<World>, k: nat)
    requires IsRun(c, rows0, steps, worlds) && k <= |steps| && NothingShared(c, rows0)
    ensures Safe(c, rows0, worlds[k]) && UpToDate(c, worlds[k]) && NoConflict(worlds[k]) && OwnersApply(c, worlds[k])
  {
    if k > 0 {
      NothingSharedNeverConflicts(c, rows0, steps, worlds, k - 1);
      assert RunStep(c, steps, worlds, k - 1);
      NextStaysCurrent(c, rows0, worlds[k - 1], steps[k - 1]);
    }
  }

  ghost predicate OneOwnerCast(c: Cast) {
    forall p, q :: 0 <= p < q < |c.owner| ==> !(c.owner[p] && c.owner[q])
  }

  /** So a cast with a single owner, however often it crashes and starts again, never conflicts. */
  lemma OneOwnerCastNeverConflicts(c: Cast, rows0: seq<string>, steps: seq<Step>, worlds: seq<World>, k: nat)
    requires IsRun(c, rows0, steps, worlds) && OneOwnerCast(c) && k <= |steps|
    ensures NoConflict(worlds[k])
  {
    NothingSharedNeverConflicts(c, rows0, steps, worlds, k);
  }

  // ---- when exactly an owner conflicts --------------------------------------------------------

  /** Process `p` was started by step `b` and has been applying ever since, up to step `k`. */
  ghost predicate ApplyingSince(steps: seq<Step>, worlds: seq<World>, p: nat, b: nat, k: nat)
    requires |worlds| == |steps| + 1 && k <= |steps|
  {
    && b < k && steps[b] == Boot(p) && p < |worlds[b].at| && worlds[b].at[p].Down?
    && forall j :: b < j <= k ==> p < |worlds[j].at| && worlds[j].at[p].Applying?
  }

  /** Step `j` commits the migration `id`, and it is a step of process `q`. */
  ghost predicate Commits(steps: seq<Step>, worlds: seq<World>, j: nat, q: nat, id: string)
    requires |worlds| == |steps| + 1 && j < |steps|
  {
    && steps[j].Advance? && steps[j].p == q && q < |worlds[j].at| && worlds[j].at[q].Applying?
    && worlds[j + 1].commits == worlds[j].commits + [id]
  }

  /** What one step does to the rows: nothing, or the commit of the entry its process has come to. */
  lemma RowsChange(c: Cast, rows0: seq<string>, w: World, s: Step)
    requires Safe(c, rows0, w)
    ensures var w' := Next(c, w, s);
            || (w'.rows == w.rows && w'.commits == w.commits)
            || (&& s.Advance? && s.p < |w.at| && w.at[s.p].Applying? && w.at[s.p].next < c.known[s.p]
                && var id := c.registry[w.at[s.p].next];
                && id !in w.rows && w'.rows == w.rows + [id] && w'.commits == w.commits + [id]
                && w'.at[s.p] == Applying(w.at[s.p].snapshot, w.at[s.p].next + 1))
  {
  }

  lemma {:induction false} RowsOnlyGrow(
    c: Cast, rows0: seq<string>, steps: seq<Step>, worlds: seq<World>, j: nat, k: nat)
    requires IsRun(c, rows0, steps, worlds) && j <= k <= |steps|
    ensures forall id :: id in worlds[j].rows ==> id in worlds[k].rows
    decreases k - j
  {
    if j < k {
      RowsOnlyGrow(c, rows0, steps, worlds, j, k - 1);
      RunIsSafe(c, rows0, steps, worlds, k - 1);
      assert RunStep(c, steps, worlds, k - 1);
      RowsChange(c, rows0, worlds[k - 1], steps[k - 1]);
    }
  }

  /** While a process applies, its snapshot stays the rows it found when it started, and it only moves on. */
  lemma {:induction false} SnapshotIsOld(
    c: Cast, rows0: seq<string>, steps: seq<Step>, worlds: seq<World>, p: nat, b: nat, j: nat, k: nat)
    requires IsRun(c, rows0, steps, worlds) && k <= |steps| && ApplyingSince(steps, worlds, p, b, k) && b < j <= k
    ensures worlds[k].at[p].snapshot == set x | x in worlds[b].rows
    ensures worlds[j].at[p].next <= worlds[k].at[p].next
    decreases k
  {
    RunIsSafe(c, rows0, steps, worlds, k - 1);
    assert RunStep(c, steps, worlds, k - 1);
    if k > b + 1 {
      SnapshotIsOld(c, rows0, steps, worlds, p, b, if j < k then j else k - 1, k - 1);
      KeepsSnapshot(c, worlds[k - 1], steps[k - 1], p);
    }
  }

  lemma KeepsSnapshot(c: Cast, w: World, s: Step, p: nat)
    requires GoodCast(c) && |w.at| == |c.known| && p < |w.at| && w.at[p].Applying? && Next(c, w, s).at[p].Applying?
    ensures Next(c, w, s).at[p].snapshot == w.at[p].snapshot && w.at[p].next <= Next(c, w, s).at[p].next
  {
  }

  /** A row that was not there at step `b` and is at step `k` was committed in between. */
  lemma {:induction false} CommittedBetween(
    c: Cast, rows0: seq<string>, steps: seq<Step>, worlds: seq<World>, b: nat, k: nat, id: string) returns (j: nat)
    requires IsRun(c, rows0, steps, worlds) && b <= k <= |steps|
    requires id !in worlds[b].rows && id in worlds[k].rows
    ensures b <= j < k && steps[j].Advance? && Commits(steps, worlds, j, steps[j].p, id)
    ensures GoodCast(c) && steps[j].p < |c.known| && worlds[j].at[steps[j].p].next < c.known[steps[j].p] <= |c.registry|
    ensures c.registry[worlds[j].at[steps[j].p].next] == id
    ensures |worlds[j + 1].at| == |c.known|
    ensures worlds[j + 1].at[steps[j].p] ==
              Applying(worlds[j].at[steps[j].p].snapshot, worlds[j].at[steps[j].p].next + 1)
    decreases k
  {
    if id in worlds[k - 1].rows {
      j := CommittedBetween(c, rows0, steps, worlds, b, k - 1, id);
    } else {
      j := k - 1;
      RunIsSafe(c, rows0, steps, worlds, j);
      assert RunStep(c, steps, worlds, j);
      RowsChange(c, rows0, worlds[j], steps[j]);
    }
  }

  /**
   * In every run, a process that takes up a migration conflicts exactly when another process has committed that
   * migration since this one was started.
   */
  lemma ConflictIff(c: Cast, rows0: seq<string>, steps: seq<Step>, worlds: seq<World>, p: nat, b: nat, k: nat)
    requires IsRun(c, rows0, steps, worlds) && k < |steps| && ApplyingSince(steps, worlds, p, b, k)
    requires steps[k] == Advance(p, true) && p < |c.known| && worlds[k].at[p].next < c.known[p] <= |c.registry|
    ensures p < |worlds[k + 1].at|
    ensures var id := c.registry[worlds[k].at[p].next];
            worlds[k + 1].at[p].Conflict? <==> exists j, q :: b < j < k && q != p && Commits(steps, worlds, j, q, id)
  {
    var id := c.registry[worlds[k].at[p].next];
    RunIsSafe(c, rows0, steps, worlds, k);
    assert RunStep(c, steps, worlds, k);
    SnapshotIsOld(c, rows0, steps, worlds, p, b, k, k);
    assert worlds[k + 1].at[p].Conflict? <==> id in worlds[k].rows && id !in worlds[b].rows;
    if id in worlds[k].rows && id !in worlds[b].rows {
      var j := CommittedBetween(c, rows0, steps, worlds, b, k, id);
      if steps[j].p == p {
        SnapshotIsOld(c, rows0, steps, worlds, p, b, j + 1, k);
      }
      assert Commits(steps, worlds, j, steps[j].p, id);
    }
    if j, q :| b < j < k && q != p && Commits(steps, worlds, j, q, id) {
      RunIsSafe(c, rows0, steps, worlds, j);
      assert RunStep(c, steps, worlds, j);
      RowsChange(c, rows0, worlds[j], steps[j]);
      RowsOnlyGrow(c, rows0, steps, worlds, b, j);
      RowsOnlyGrow(c, rows0, steps, worlds, j + 1, k);
      LastCommit(worlds[j].commits, id, worlds[j + 1].commits);
    }
  }

  lemma LastCommit(before: seq<string>, id: string, after: seq<string>)
    requires after == before + [id]
    ensures after[|before|] == id && id in after && after != before
    ensures forall other :: after == before + [other] ==> other == id
  {
    forall other | after == before + [other]
      ensures other == id
    {
      assert (before + [other])[|before|] == other;
    }
  }

  // ---- and which casts have a run with a conflict ----------------------------------------------

  lemma RunGrows(c: Cast, rows0: seq<string>, steps: seq<Step>, worlds: seq<World>, s: Step)
    requires IsRun(c, rows0, steps, worlds) && |worlds[|steps|].at| == |c.known|
    ensures IsRun(c, rows0, steps + [s], worlds + [Next(c, worlds[|steps|], s)])
  {
    var steps', worlds' := steps + [s], worlds + [Next(c, worlds[|steps|], s)];
    forall k | 0 <= k < |steps'|
      ensures RunStep(c, steps', worlds', k)
    {
      assert k < |steps| ==> RunStep(c, steps, worlds, k);
    }
  }

  /** Two owners that have started at the same table and have both come past the `m` entries it holds. */
  ghost predicate BothAt(c: Cast, rows0: seq<string>, w: World, p: nat, q: nat, m: nat) {
    && |w.at| == |c.known| && p < |w.at| && q < |w.at| && w.rows == rows0
    && w.at[p] == w.at[q] == Applying((set x | x in rows0), m)
  }

  lemma {:induction false} BothSkip(c: Cast, rows0: seq<string>, p: nat, q: nat, m: nat)
    returns (steps: seq<Step>, worlds: seq<World>)
    requires GoodCast(c) && Distinct(rows0) && InRegistryOrder(c.registry, rows0)
    requires p < |c.owner| && q < |c.owner| && p != q && c.owner[p] && c.owner[q]
    requires m <= c.known[p] && m <= c.known[q] && PrefixApplied(c.registry, rows0, m)
    ensures IsRun(c, rows0, steps, worlds) && BothAt(c, rows0, worlds[|steps|], p, q, m)
  {
    var s, t;
    if m == 0 {
      steps, worlds := [], [World(rows0, [], seq(|c.known|, _ => Down))];
      s, t := Boot(p), Boot(q);
    } else {
      steps, worlds := BothSkip(c, rows0, p, q, m - 1);
      s, t := Advance(p, true), Advance(q, true);
    }
    var w := worlds[|steps|];
    RunGrows(c, rows0, steps, worlds, s);
    RunGrows(c, rows0, steps + [s], worlds + [Next(c, w, s)], t);
    steps, worlds := steps + [s] + [t], worlds + [Next(c, w, s)] + [Next(c, Next(c, w, s), t)];
  }

  /** Two owners that share a migration: both read the table as it is, one applies, the other conflicts. */
  lemma TwoOwnersConflict(c: Cast, rows0: seq<string>, p: nat, q: nat, i: nat)
    returns (steps: seq<Step>, worlds: seq<World>, n: nat)
    requires GoodCast(c) && Distinct(rows0) && InRegistryOrder(c.registry, rows0)
    requires p < |c.owner| && q < |c.owner| && p != q && c.owner[p] && c.owner[q]
    requires i < c.known[p] && i < c.known[q] && c.registry[i] !in rows0
    ensures IsRun(c, rows0, steps, worlds) && q < |worlds[|steps|].at| && worlds[|steps|].at[q].Conflict?
    ensures n <= i && worlds[|steps|].rows == rows0 + [c.registry[n]]
  {
    n := AppliedIsPrefix(c.registry, rows0);
    steps, worlds := BothSkip(c, rows0, p, q, n);
    var w, s, t := worlds[|steps|], Advance(p, true), Advance(q, true);
    RunGrows(c, rows0, steps, worlds, s);
    RunGrows(c, rows0, steps + [s], worlds + [Next(c, w, s)], t);
    steps, worlds := steps + [s] + [t], worlds + [Next(c, w, s)] + [Next(c, Next(c, w, s), t)];
  }

  ghost predicate ConflictFree(c: Cast, rows0: seq<string>) {
    forall steps, worlds, k: nat :: IsRun(c, rows0, steps, worlds) && k <= |steps| ==> NoConflict(worlds[k])
  }

  /** No run conflicts exactly when no two owners both know of a migration that has yet to be applied. */
  lemma ConflictFreeIff(c: Cast, rows0: seq<string>)
    requires GoodCast(c) && Distinct(rows0) && InRegistryOrder(c.registry, rows0)
    ensures ConflictFree(c, rows0) <==> NothingShared(c, rows0)
  {
    if NothingShared(c, rows0) {
      forall steps, worlds, k: nat | IsRun(c, rows0, steps, worlds) && k <= |steps|
        ensures NoConflict(worlds[k])
      {
        NothingSharedNeverConflicts(c, rows0, steps, worlds, k);
      }
    } else {
      var p: nat, q: nat, i: nat :| p < q < |c.owner| && c.owner[p] && c.owner[q] && i < c.known[p] && i < c.known[q]
                                    && c.registry[i] !in rows0;
      var steps, worlds, n := TwoOwnersConflict(c, rows0, p, q, i);
    }
  }

  // ---- a waiter does return -------------------------------------------------------------------

  /** From the start of a pass, `n` polls later with the table as it is. */
  function Polls(c: Cast, w: World, p: nat, n: nat): World
    requires |w.at| == |c.known| == |c.owner| && forall p :: 0 <= p < |c.known| ==> c.known[p] <= |c.registry|
    ensures |Polls(c, w, p, n).at| == |w.at|
  {
    if n == 0 then w else Next(c, Polls(c, w, p, n - 1), Poll(p, true))
  }

  /** Once everything is applied, the next full pass lets the waiter go, even if its time is up by then. */
  lemma {:induction false} WaiterReturns(c: Cast, w: World, p: nat, n: nat)
    requires GoodCast(c) && |w.at| == |c.known| && p < |w.at| && w.at[p] == Polling(0, false)
    requires PrefixApplied(c.registry, w.rows, c.known[p]) && n <= c.known[p]
    ensures Polls(c, w, p, n) == w.(at := w.at[p := Polling(n, false)])
    ensures n == c.known[p] ==> Polls(c, w, p, n + 1).at[p] == Ready
  {
    if n == 0 {
      assert w.at[p := Polling(0, false)] == w.at;
    } else {
      WaiterReturns(c, w, p, n - 1);
    }
  }
}
