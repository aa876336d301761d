/**
 * The hand-maintained list of migrations and the check on it (backend/src/db/migrate.js, assertRegistryIntact), and
 * one owner's pass over it (runMigrations).
 */
module MigrationRegistry {
  import opened Common
  import opened StableSort

  /** An entry's id as exported: missing or not a string, or a string. */
  datatype RawId = NotText | Text(id: string)

  datatype RegistryError =
    | Nameless(count: nat)
    | Duplicate(id: string)
    | OutOfOrder(before: string, after: string)
    | Orphans(files: seq<string>)

  const Blanks: set<char> := {' ', '\t', '\n', '\r'}

  predicate Named(raw: RawId) {
    raw.Text? && exists k :: 0 <= k < |raw.id| && raw.id[k] !in Blanks
  }

  /** The order of JavaScript's `<` on strings. */
  predicate Less(a: string, b: string) {
    b != "" && (a == "" || a[0] < b[0] || (a[0] == b[0] && Less(a[1..], b[1..])))
  }

  /** `k` is the first position at which the two differ, and `a` has the smaller character there. */
  ghost predicate DecidesAt(a: string, b: string, k: nat) {
    k < |a| && k < |b| && a[k] < b[k] && forall i :: 0 <= i < k ==> a[i] == b[i]
  }

  lemma DecidesLater(a: string, b: string, k: nat)
    requires a != "" && b != "" && a[0] == b[0]
    ensures DecidesAt(a, b, k + 1) <==> DecidesAt(a[1..], b[1..], k)
    ensures !DecidesAt(a, b, 0)
  {
    if DecidesAt(a[1..], b[1..], k) {
      forall i | 0 <= i < k + 1
        ensures a[i] == b[i]
      {
        assert i > 0 ==> a[1..][i - 1] == b[1..][i - 1];
      }
    }
  }

  /** The first position that differs decides; a string comes before any longer one that begins with it. */
  ghost predicate Precedes(a: string, b: string) {
    a < b || exists k: nat :: DecidesAt(a, b, k)
  }

  lemma TailsPrecede(a: string, b: string)
    requires a != "" && b != "" && a[0] == b[0]
    ensures Precedes(a, b) <==> Precedes(a[1..], b[1..])
  {
    assert a == [a[0]] + a[1..] && b == [b[0]] + b[1..];
    if a < b {
      assert b == a + b[|a|..];
      assert b[1..] == a[1..] + b[|a|..];
    } else if k: nat :| DecidesAt(a, b, k) {
      DecidesLater(a, b, 0);
      DecidesLater(a, b, k - 1);
    }
    if a[1..] < b[1..] {
      assert b[1..] == a[1..] + b[1..][|a| - 1..];
      assert b == a + b[1..][|a| - 1..];
    } else if k: nat :| DecidesAt(a[1..], b[1..], k) {
      DecidesLater(a, b, k);
    }
  }

  lemma {:induction false} LessMeans(a: string, b: string)
    ensures Less(a, b) <==> Precedes(a, b)
  {
    if a != "" && b != "" {
      if a[0] == b[0] {
        LessMeans(a[1..], b[1..]);
        TailsPrecede(a, b);
      } else {
        assert DecidesAt(a, b, 0) <==> a[0] < b[0];
      }
    }
  }

  lemma {:induction false} LessIsTransitive(a: string, b: string, c: string)
    requires Less(a, b) && Less(b, c)
    ensures Less(a, c)
  {
    if a != "" && a[0] == b[0] && b[0] == c[0] {
      LessIsTransitive(a[1..], b[1..], c[1..]);
    }
  }

  lemma {:induction false} LessIsStrict(a: string)
    ensures !Less(a, a)
  {
    if a != "" {
      LessIsStrict(a[1..]);
    }
  }

  ghost predicate Increasing(ids: seq<string>) {
    forall i, j :: 0 <= i < j < |ids| ==> Less(ids[i], ids[j])
  }

  ghost predicate NeighboursIncrease(ids: seq<string>) {
    forall i :: 0 < i < |ids| ==> Less(ids[i - 1], ids[i])
  }

  lemma {:induction false} NeighboursSuffice(ids: seq<string>, i: nat, j: nat)
    requires NeighboursIncrease(ids) && i < j < |ids|
    ensures Less(ids[i], ids[j])
    decreases j - i
  {
    if i + 1 < j {
      NeighboursSuffice(ids, i, j - 1);
      LessIsTransitive(ids[i], ids[j - 1], ids[j]);
    }
  }

  /** Increasing neighbours make the whole list increasing, and so free of duplicates. */
  lemma IncreasingMeans(ids: seq<string>)
    requires NeighboursIncrease(ids)
    ensures Increasing(ids) && Distinct(ids)
  {
    forall i, j | 0 <= i < j < |ids|
      ensures Less(ids[i], ids[j]) && ids[i] != ids[j]
    {
      NeighboursSuffice(ids, i, j);
      LessIsStrict(ids[i]);
    }
  }

  predicate EndsWith(s: string, suffix: string) {
    |s| >= |suffix| && s[|s| - |suffix|..] == suffix
  }

  predicate IsMigrationFile(f: string) {
    EndsWith(f, ".js") && !EndsWith(f, ".test.js")
  }

  function Stem(f: string): string
    requires IsMigrationFile(f)
  {
    f[..|f| - 3]
  }

  /** The id a file stands for is not registered, so the file would never run. */
  predicate Orphan(f: string, ids: seq<string>) {
    IsMigrationFile(f) && Stem(f) !in ids
  }

  function CountNameless(raw: seq<RawId>): nat {
    if raw == [] then 0 else (if Named(raw[0]) then 0 else 1) + CountNameless(raw[1..])
  }

  lemma {:induction false} NobodyNameless(raw: seq<RawId>)
    ensures CountNameless(raw) == 0 <==> forall i :: 0 <= i < |raw| ==> Named(raw[i])
  {
    if raw != [] {
      NobodyNameless(raw[1..]);
      assert forall i :: 1 <= i < |raw| ==> raw[i] == raw[1..][i - 1];
    }
  }

  function IdsOf(raw: seq<RawId>): seq<string> {
    seq(|raw|, i requires 0 <= i < |raw| => if raw[i].Text? then raw[i].id else "")
  }

  /** `files` are the names in the migrations directory, when it is there to be read. */
  method AssertRegistryIntact(raw: seq<RawId>, files: Option<seq<string>>)
    returns (r: Result<seq<string>, RegistryError>)
    ensures r.Ok? <==>
              && (forall i :: 0 <= i < |raw| ==> Named(raw[i]))
              && NeighboursIncrease(IdsOf(raw))
              && (files.Some? ==> forall f :: f in files.value ==> !Orphan(f, IdsOf(raw)))
    // An accepted registry is increasing and without duplicates.
    ensures r.Ok? ==> r.value == IdsOf(raw) && Increasing(r.value) && Distinct(r.value)
    // The first thing wrong is the one reported.
    ensures r.Err? && r.error.Nameless? ==> r.error.count == |Filter((x: RawId) => !Named(x), raw)| > 0
    ensures r.Err? && r.error.Duplicate? ==>
              exists i, j :: 0 <= i < j < |raw| && raw[i] == raw[j] == Text(r.error.id) && Distinct(IdsOf(raw)[..j])
    ensures r.Err? && r.error.OutOfOrder? ==>
              && Distinct(IdsOf(raw)) && !Less(r.error.before, r.error.after)
              && exists i :: 0 < i < |raw| && raw[i - 1] == Text(r.error.before) && raw[i] == Text(r.error.after)
    ensures r.Err? && r.error.Orphans? ==>
              && Increasing(IdsOf(raw)) && files.Some? && r.error.files != []
              && forall f :: f in r.error.files <==> f in files.value && Orphan(f, IdsOf(raw))
  {
    var ids := IdsOf(raw);
    NobodyNameless(raw);
    NamelessCounted(raw);
    if CountNameless(raw) > 0 {
      return Err(Nameless(CountNameless(raw)));
    }
    var dup := FirstDuplicate(ids);
    if dup.Some? {
      if NeighboursIncrease(ids) {
        IncreasingMeans(ids);
        assert false;
      }
      return Err(Duplicate(dup.value));
    }
    var bad := FirstDisorder(ids);
    if bad.Some? {
      return Err(OutOfOrder(ids[bad.value - 1], ids[bad.value]));
    }
    IncreasingMeans(ids);
    if files.None? {
      return Ok(ids);
    }
    var orphans := OrphansOf(files.value, ids);
    if |orphans| > 0 {
      assert orphans[0] in orphans;
      return Err(Orphans(orphans));
    }
    r := Ok(ids);
  }

  /** An entry is named when its id is a string that is not blank. */
  lemma NamedMeans(raw: RawId)
    ensures Named(raw) <==> raw != NotText && exists c :: c in raw.id && c !in {' ', '\t', '\n', '\r'}
  {
    if raw.Text? {
      if c :| c in raw.id && c !in {' ', '\t', '\n', '\r'} {
        var k :| 0 <= k < |raw.id| && raw.id[k] == c;
      }
      if k :| 0 <= k < |raw.id| && raw.id[k] !in Blanks {
        assert raw.id[k] in raw.id;
      }
    }
  }

  lemma {:induction false} NamelessCounted(raw: seq<RawId>)
    ensures CountNameless(raw) == |Filter((x: RawId) => !Named(x), raw)|
  {
    hide Named;
    if raw != [] {
      NamelessCounted(raw[1..]);
    }
  }

  /** A migration file whose name, less its extension, is not registered; test files are not migration files. */
  lemma OrphanMeans(stem: string, f: string, ids: seq<string>)
    ensures Orphan(stem + ".js", ids) <==> stem !in ids && !(|stem| >= 5 && stem[|stem| - 5..] == ".test")
    ensures Orphan(f, ids) ==> |f| >= 3 && f == f[..|f| - 3] + ".js" && f[..|f| - 3] !in ids
  {
    var g := stem + ".js";
    assert g[|g| - 3..] == ".js" && g[..|g| - 3] == stem;
    if |stem| >= 5 {
      assert g[|g| - 8..] == stem[|stem| - 5..] + ".js";
      assert ".test" + ".js" == ".test.js";
      assert g[|g| - 8..][..5] == stem[|stem| - 5..];
      assert ".test.js"[..5] == ".test";
    }
  }

  method FirstDuplicate(ids: seq<string>) returns (r: Option<string>)
    ensures r.None? <==> Distinct(ids)
    ensures r.Some? ==> exists i, j :: 0 <= i < j < |ids| && ids[i] == ids[j] == r.value && Distinct(ids[..j])
  {
    var seen: set<string> := {};
    for i := 0 to |ids|
      invariant Distinct(ids[..i]) && forall x :: x in seen <==> x in ids[..i]
    {
      if ids[i] in seen {
        return Some(ids[i]);
      }
      seen := seen + {ids[i]};
    }
    assert ids[..|ids|] == ids;
    r := None;
  }

  method FirstDisorder(ids: seq<string>) returns (r: Option<nat>)
    ensures r.None? <==> NeighboursIncrease(ids)
    ensures r.Some? ==>
              && 0 < r.value < |ids| && !Less(ids[r.value - 1], ids[r.value])
              && NeighboursIncrease(ids[..r.value])
  {
    var i := 1;
    while i < |ids|
      invariant 1 <= i && forall k :: 0 < k < i && k < |ids| ==> Less(ids[k - 1], ids[k])
    {
      if !Less(ids[i - 1], ids[i]) {
        return Some(i);
      }
      i := i + 1;
    }
    r := None;
  }

  method OrphansOf(files: seq<string>, ids: seq<string>) returns (orphans: seq<string>)
    ensures forall f :: f in orphans <==> f in files && Orphan(f, ids)
  {
    orphans := [];
    for k := 0 to |files|
      invariant forall f :: f in orphans <==> f in files[..k] && Orphan(f, ids)
    {
      if Orphan(files[k], ids) {
        orphans := orphans + [files[k]];
      }
    }
    assert files[..|files|] == files;
  }

  // ---- one owner, undisturbed -----------------------------------------------------------------

  /** The registered ids that are not applied, in the order of the registry. */
  function Missing(ids: seq<string>, applied: set<string>): seq<string> {
    if ids == [] then []
    else
      var n := |ids| - 1;
      Missing(ids[..n], applied) + (if ids[n] in applied then [] else [ids[n]])
  }

  class Database {
    /** schema_migrations, in the order of insertion. */
    var rows: seq<string>

    constructor (rows: seq<string>)
      ensures this.rows == rows
    {
      this.rows := rows;
    }

    /**
     * The pass over the registry. `upOk` says which up() succeeds. What is missing is applied in the order of the
     * registry, each exactly once; a failing up() stops the pass and leaves exactly what came before it.
     */
    method RunMigrations(ids: seq<string>, upOk: set<string>) returns (applied: nat, failed: Option<string>)
      requires Distinct(ids)
      modifies this
      ensures var due := Missing(ids, set x | x in old(rows));
              && applied <= |due| && rows == old(rows) + due[..applied]
              && (failed.None? <==> applied == |due|)
              && (forall k :: 0 <= k < applied ==> due[k] in upOk)
              && (failed.Some? ==> applied < |due| && failed == Some(due[applied]) && due[applied] !in upOk)
    {
      var snapshot := set x | x in rows;
      applied, failed := 0, None;
      for k := 0 to |ids|
        invariant failed == None && applied == |Missing(ids[..k], snapshot)|
        invariant rows == old(rows) + Missing(ids[..k], snapshot)
        invariant forall j :: 0 <= j < applied ==> Missing(ids[..k], snapshot)[j] in upOk
      {
        assert ids[..k + 1][..k] == ids[..k];
        if ids[k] !in snapshot {
          if ids[k] !in upOk {
            failed := Some(ids[k]);
            MissingGrows(ids, snapshot, k);
            return;
          }
          rows := rows + [ids[k]];
          applied := applied + 1;
        }
      }
      assert ids[..|ids|] == ids;
    }
  }

  lemma {:induction false} MissingExtends(a: seq<string>, b: seq<string>, applied: set<string>)
    ensures Missing(a, applied) <= Missing(a + b, applied)
  {
    if b == [] {
      assert a + b == a;
    } else {
      var n := |b| - 1;
      assert (a + b)[..|a + b| - 1] == a + b[..n];
      MissingExtends(a, b[..n], applied);
    }
  }

  lemma MissingGrows(ids: seq<string>, applied: set<string>, k: nat)
    requires k < |ids| && ids[k] !in applied
    ensures Missing(ids[..k], applied) + [ids[k]] <= Missing(ids, applied)
  {
    assert ids[..k + 1][..k] == ids[..k];
    assert ids == ids[..k + 1] + ids[k + 1..];
    MissingExtends(ids[..k + 1], ids[k + 1..], applied);
  }

  /** After an undisturbed pass everything is applied, and a second pass has nothing to do. */
  lemma {:induction false} SecondPassIsIdle(ids: seq<string>, rows: seq<string>)
    ensures var rows' := rows + Missing(ids, set x | x in rows);
            && (forall id :: id in ids ==> id in rows')
            && Missing(ids, set x | x in rows') == []
  {
    var applied, rows' := (set x | x in rows), rows + Missing(ids, set x | x in rows);
    MissingMembers(ids, applied);
    AllApplied(ids, set x | x in rows');
  }

  lemma {:induction false} MissingMembers(ids: seq<string>, applied: set<string>)
    ensures forall id :: id in Missing(ids, applied) <==> id in ids && id !in applied
  {
    if ids != [] {
      var n := |ids| - 1;
      MissingMembers(ids[..n], applied);
      assert ids == ids[..n] + [ids[n]];
    }
  }

  /** What is missing is the registry, in its order, without what is applied. */
  lemma {:induction false} MissingInOrder(ids: seq<string>, applied: set<string>)
    ensures Missing(ids, applied) == Filter((id: string) => id !in applied, ids)
  {
    if ids != [] {
      var n := |ids| - 1;
      MissingInOrder(ids[..n], applied);
      assert ids == ids[..n] + [ids[n]] && [ids[n]][1..] == [];
      FilterConcat((id: string) => id !in applied, ids[..n], [ids[n]]);
    }
  }

  lemma {:induction false} AllApplied(ids: seq<string>, applied: set<string>)
    requires forall id :: id in ids ==> id in applied
    ensures Missing(ids, applied) == []
  {
    if ids != [] {
      AllApplied(ids[..|ids| - 1], applied);
    }
  }
}
