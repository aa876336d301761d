/** What it means for a log of instants to keep to a limit: so many events in any window of a given length. */
module SlidingWindow {
  import opened Common

  predicate Ascending(log: seq<int>) {
    forall i, j :: 0 <= i < j < |log| ==> log[i] <= log[j]
  }

  /** Any `limit + 1` consecutive events span at least `span`. */
  predicate Spaced(log: seq<int>, limit: nat, span: int) {
    forall i: nat :: i + limit < |log| ==> log[i] + span <= log[i + limit]
  }

  ghost function InWindow(log: seq<int>, from: int, span: int): set<nat> {
    set i: nat | i < |log| && from <= log[i] < from + span
  }

  /** How many leading entries are at most `cut`. */
  function Before(log: seq<int>, cut: int): (n: nat)
    ensures n <= |log|
    ensures forall i :: 0 <= i < n ==> log[i] <= cut
    ensures n < |log| ==> log[n] > cut
  {
    if log == [] || log[0] > cut then 0 else 1 + Before(log[1..], cut)
  }

  lemma WindowIsShort(log: seq<int>, limit: nat, span: int, from: int)
    requires Ascending(log) && Spaced(log, limit, span)
    ensures |InWindow(log, from, span)| <= limit
  {
    var lo := Before(log, from - 1);
    forall i | i in InWindow(log, from, span)
      ensures i in Range(lo, lo + limit)
    {
      assert lo + limit < |log| ==> log[lo] + span <= log[lo + limit];
    }
    SubsetSize(InWindow(log, from, span), Range(lo, lo + limit));
  }

  lemma CrowdedWindow(log: seq<int>, limit: nat, span: int, i: nat)
    requires Ascending(log) && span > 0
    requires i + limit < |log| && log[i + limit] < log[i] + span
    ensures |InWindow(log, log[i], span)| > limit
  {
    forall j | j in Range(i, i + limit + 1)
      ensures j in InWindow(log, log[i], span)
    {
      assert i < j ==> log[i] <= log[j];
      assert j < i + limit ==> log[j] <= log[i + limit];
    }
    SubsetSize(Range(i, i + limit + 1), InWindow(log, log[i], span));
  }

  /** Spacing is the same thing as no window of length `span`, wherever it starts, holding more than `limit` events. */
  lemma SpacedIsWindowed(log: seq<int>, limit: nat, span: int)
    requires Ascending(log) && span > 0
    ensures Spaced(log, limit, span) <==> forall from :: |InWindow(log, from, span)| <= limit
  {
    if Spaced(log, limit, span) {
      forall from
        ensures |InWindow(log, from, span)| <= limit
      {
        WindowIsShort(log, limit, span, from);
      }
    } else {
      var i: nat :| i + limit < |log| && log[i] + span > log[i + limit];
      CrowdedWindow(log, limit, span, i);
    }
  }

  /** Adding one event keeps the spacing exactly when it comes late enough after the event `limit` before it. */
  lemma OneMore(log: seq<int>, limit: nat, span: int, t: int)
    requires Spaced(log, limit, span) && limit > 0
    ensures Spaced(log + [t], limit, span) <==> |log| < limit || log[|log| - limit] + span <= t
  {
    var g := log + [t];
    assert forall i :: 0 <= i < |log| ==> g[i] == log[i];
    if Spaced(g, limit, span) && |log| >= limit {
      var i: nat := |log| - limit;
      assert g[i] + span <= g[i + limit];
    }
    if |log| < limit || log[|log| - limit] + span <= t {
      forall i: nat | i + limit < |g|
        ensures g[i] + span <= g[i + limit]
      {
        if i + limit < |log| {
          assert log[i] + span <= log[i + limit];
        }
      }
    }
  }
}
