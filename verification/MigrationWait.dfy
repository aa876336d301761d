/**
 * The polling loop of a process that waits for its migrations (backend/src/db/migrate.js, waitForMigrations). Each id
 * is looked up by a read of its own, and the owner may commit between any two reads: `applied(k, i)` is what the look
 * at the i-th id finds in the k-th pass, `now(k)` the clock at the look at the deadline after it.
 */
module MigrationWait {

  /** The ids, from the i-th on, that the k-th pass does not find. */
  function Pass(expected: seq<string>, applied: (nat, nat) -> set<string>, k: nat, i: nat): seq<string>
    requires i <= |expected|
    decreases |expected| - i
  {
    if i == |expected| then []
    else (if expected[i] in applied(k, i) then [] else [expected[i]]) + Pass(expected, applied, k, i + 1)
  }

  /** One read comes before another, or is the same. */
  ghost predicate NotAfter(k: nat, i: nat, m: nat, j: nat) {
    k < m || (k == m && i <= j)
  }

  /** Rows are never deleted. */
  ghost predicate Grows(applied: (nat, nat) -> set<string>) {
    forall k: nat, i: nat, m: nat, j: nat :: NotAfter(k, i, m, j) ==> applied(k, i) <= applied(m, j)
  }

  /** expected.filter(id => !applied().has(id)) */
  method Poll(expected: seq<string>, applied: (nat, nat) -> set<string>, k: nat) returns (missing: seq<string>)
    ensures missing == Pass(expected, applied, k, 0)
  {
    missing := [];
    for i := 0 to |expected|
      invariant missing + Pass(expected, applied, k, i) == Pass(expected, applied, k, 0)
    {
      if expected[i] !in applied(k, i) {
        missing := missing + [expected[i]];
      }
    }
  }

  /**
   * Nothing missing is a normal return, anything else a timeout that names the first missing id. The `eventually`-th
   * look at the clock finds the deadline passed, so the loop ends.
   */
  method WaitForMigrations(
    expected: seq<string>, applied: (nat, nat) -> set<string>, now: nat -> int, deadline: int, ghost eventually: nat)
    returns (missing: seq<string>, polls: nat)
    requires now(eventually) >= deadline
    ensures missing == Pass(expected, applied, polls, 0)
    // It gives up only once the deadline has passed, and never polls again after a pass that missed nothing.
    ensures missing != [] ==> now(polls) >= deadline
    ensures forall k: nat :: k < polls ==> now(k) < deadline && Pass(expected, applied, k, 0) != []
    ensures polls <= eventually
  {
    polls := 0;
    missing := Poll(expected, applied, 0);
    while missing != [] && now(polls) < deadline
      invariant missing == Pass(expected, applied, polls, 0) && polls <= eventually
      invariant forall k: nat :: k < polls ==> now(k) < deadline && Pass(expected, applied, k, 0) != []
      decreases eventually - polls
    {
      polls := polls + 1;
      missing := Poll(expected, applied, polls);
    }
  }

  /** A pass misses exactly the ids that their own look did not find, the first of them first. */
  lemma {:induction false} PassMisses(
    expected: seq<string>, applied: (nat, nat) -> set<string>, k: nat, i: nat, id: string)
    requires i <= |expected|
    ensures id in Pass(expected, applied, k, i) <==>
              exists j: nat :: i <= j < |expected| && expected[j] == id && id !in applied(k, j)
    ensures Pass(expected, applied, k, i) != [] ==>
              exists j: nat :: && i <= j < |expected| && expected[j] == Pass(expected, applied, k, i)[0]
                               && expected[j] !in applied(k, j)
                               && forall l: nat :: i <= l < j ==> expected[l] in applied(k, l)
    decreases |expected| - i
  {
    if i < |expected| {
      PassMisses(expected, applied, k, i + 1, id);
    }
  }

  lemma {:induction false} PassFinds(
    expected: seq<string>, applied: (nat, nat) -> set<string>, k: nat, i: nat, j: nat)
    requires i <= j < |expected| && Pass(expected, applied, k, i) == []
    ensures expected[j] in applied(k, j)
    decreases j - i
  {
    if i < j {
      PassFinds(expected, applied, k, i + 1, j);
    }
  }

  /**
   * The reads of a pass are not one snapshot, but since rows only come, a pass that misses nothing proves that every
   * expected migration is applied when it ends.
   */
  lemma EmptyPassMeansApplied(expected: seq<string>, applied: (nat, nat) -> set<string>, k: nat, id: string)
    requires Grows(applied) && Pass(expected, applied, k, 0) == [] && id in expected
    ensures id in applied(k, |expected|)
  {
    var j :| 0 <= j < |expected| && expected[j] == id;
    PassFinds(expected, applied, k, 0, j);
    assert NotAfter(k, j, k, |expected|);
  }

  /** And a pass that begins when everything is applied misses nothing. */
  lemma {:induction false} AppliedMeansEmptyPass(
    expected: seq<string>, applied: (nat, nat) -> set<string>, k: nat, i: nat)
    requires Grows(applied) && i <= |expected| && forall id :: id in expected ==> id in applied(k, 0)
    ensures Pass(expected, applied, k, i) == []
    decreases |expected| - i
  {
    if i < |expected| {
      assert NotAfter(k, 0, k, i);
      AppliedMeansEmptyPass(expected, applied, k, i + 1);
    }
  }
}
