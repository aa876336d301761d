/** Fitting a headline to the screen without cutting a sentence (backend/src/radio/radioState.js, fitHeadline). */
module FitHeadline {
  const MIN_CLAUSE := 30

  function TrimEnd(s: string): (r: string)
    ensures |r| <= |s| && r == s[..|r|]
  {
    if s == "" || s[|s| - 1] != ' ' then s else TrimEnd(s[..|s| - 1])
  }

  /** What is left of `h` when it is cut at the clause boundary `c`. */
  function Head(h: string, c: nat): string
    requires c <= |h|
  {
    TrimEnd(h[..c])
  }

  /** Long enough, and more than one word: still a real headline. */
  predicate RealHeadline(s: string) {
    |s| >= MIN_CLAUSE && ' ' in s
  }

  lemma {:induction false} TrimEndGrows(s: string, n: nat)
    requires n <= |s|
    ensures |TrimEnd(s[..n])| <= |TrimEnd(s)|
    decreases |s|
  {
    if n == |s| {
      assert s[..n] == s;
    } else if s[|s| - 1] == ' ' {
      assert s[..|s| - 1][..n] == s[..n];
      TrimEndGrows(s[..|s| - 1], n);
    }
  }

  lemma HeadGrows(h: string, c: nat, d: nat)
    requires c <= d <= |h|
    ensures |Head(h, c)| <= |Head(h, d)|
  {
    assert h[..d][..c] == h[..c];
    TrimEndGrows(h[..d], c);
  }

  /** Cutting at a boundary leaves what comes before it, without the blanks at its end. */
  lemma {:induction false} HeadMeans(h: string, c: nat)
    requires c <= |h|
    ensures Head(h, c) <= h[..c]
    ensures Head(h, c) == "" || Head(h, c)[|Head(h, c)| - 1] != ' '
    ensures forall i :: |Head(h, c)| <= i < c ==> h[i] == ' '
  {
    if c > 0 && h[c - 1] == ' ' {
      assert h[..c][..c - 1] == h[..c - 1];
      HeadMeans(h, c - 1);
    }
  }

  /**
   * A headline that is short enough is kept whole. A longer one is cut at a clause boundary to the longest real
   * headline that fits, or dropped ("") when no boundary gives one; it is never cut anywhere else.
   */
  method Fit(h: string, cuts: seq<nat>, max: nat) returns (best: string)
    requires forall i :: 0 <= i < |cuts| ==> cuts[i] <= |h|
    requires forall i, j :: 0 <= i < j < |cuts| ==> cuts[i] < cuts[j]
    ensures |best| <= max
    ensures |h| <= max ==> best == h
    ensures |h| > max && best != "" ==>
              |best| >= 30 && ' ' in best && exists i :: 0 <= i < |cuts| && best == Head(h, cuts[i])
    ensures |h| > max ==>
              forall i :: 0 <= i < |cuts| && 30 <= |Head(h, cuts[i])| <= max && ' ' in Head(h, cuts[i]) ==>
                |Head(h, cuts[i])| <= |best|
  {
    if |h| <= max {
      return h;
    }
    best := "";
    var k := 0;
    while k < |cuts|
      invariant 0 <= k <= |cuts| && |best| <= max
      invariant best != "" ==> exists i :: 0 <= i < k && best == Head(h, cuts[i]) && RealHeadline(best)
      invariant forall i :: 0 <= i < k ==> |Head(h, cuts[i])| <= max
      invariant forall i :: 0 <= i < k && RealHeadline(Head(h, cuts[i])) ==> |Head(h, cuts[i])| <= |best|
    {
      var head := Head(h, cuts[k]);
      if |head| > max {
        forall i | k <= i < |cuts|
          ensures |Head(h, cuts[i])| > max
        {
          HeadGrows(h, cuts[k], cuts[i]);
        }
        return;
      }
      forall i | 0 <= i < k
        ensures |Head(h, cuts[i])| <= |head|
      {
        HeadGrows(h, cuts[i], cuts[k]);
      }
      if RealHeadline(head) {
        best := head;
      }
      k := k + 1;
    }
  }
}
