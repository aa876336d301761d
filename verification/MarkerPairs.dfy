/**
 * The rehearsal's self-test (backend/src/radio/filmPlayout.js, pairMarkers): flashes found in the picture are paired
 * with beeps found in the sound, each flash in turn taking the nearest beep still free.
 */
module MarkerPairs {
  import opened Common

  datatype Pair = Pair(video: real, audio: real, offset: real)

  datatype Unmatched = Flash(at: real) | Beep(at: real)

  function Abs(x: real): real {
    if x < 0.0 then -x else x
  }

  predicate Near(video: real, audio: real, window: real) {
    Abs(audio - video) <= window
  }

  /** Beep `j` is not the partner of any of the flashes so far. */
  predicate Free(partner: seq<Option<nat>>, j: nat) {
    Some(j) !in partner
  }

  /** What the k-th flash gets, when the flashes before it have theirs: the first nearest free beep in the window. */
  ghost predicate RightPartner(video: seq<real>, audio: seq<real>, window: real, partner: seq<Option<nat>>, k: nat)
    requires k < |partner| <= |video|
  {
    var before := partner[..k];
    match partner[k]
    case None => forall j: nat :: j < |audio| && Free(before, j) ==> !Near(video[k], audio[j], window)
    case Some(b) =>
      && b < |audio| && Free(before, b) && Near(video[k], audio[b], window)
      && forall j: nat :: j < |audio| && Free(before, j) ==>
           Abs(audio[b] - video[k]) <= Abs(audio[j] - video[k])
           && (Abs(audio[b] - video[k]) == Abs(audio[j] - video[k]) ==> b <= j)
  }

  ghost predicate Matching(video: seq<real>, audio: seq<real>, window: real, partner: seq<Option<nat>>) {
    |partner| <= |video| && forall k :: 0 <= k < |partner| ==> RightPartner(video, audio, window, partner, k)
  }

  /** The inner loop: the partner of one flash. */
  method Nearest(vt: real, audio: seq<real>, window: real, partner: seq<Option<nat>>) returns (best: Option<nat>)
    ensures best.None? ==> forall j: nat :: j < |audio| && Free(partner, j) ==> !Near(vt, audio[j], window)
    ensures best.Some? ==>
              var b := best.value;
              && b < |audio| && Free(partner, b) && Near(vt, audio[b], window)
              && forall j: nat :: j < |audio| && Free(partner, j) ==>
                   Abs(audio[b] - vt) <= Abs(audio[j] - vt) && (Abs(audio[b] - vt) == Abs(audio[j] - vt) ==> b <= j)
  {
    best := None;
    for j := 0 to |audio|
      invariant best.None? ==> forall i: nat :: i < j && Free(partner, i) ==> !Near(vt, audio[i], window)
      invariant best.Some? ==>
                  var b := best.value;
                  && b < j && Free(partner, b) && Near(vt, audio[b], window)
                  && forall i: nat :: i < j && Free(partner, i) ==>
                       Abs(audio[b] - vt) <= Abs(audio[i] - vt) && (Abs(audio[b] - vt) == Abs(audio[i] - vt) ==> b <= i)
    {
      if Free(partner, j) && Near(vt, audio[j], window)
         && (best.None? || Abs(audio[j] - vt) < Abs(audio[best.value] - vt)) {
        best := Some(j);
      }
    }
  }

  function PairsOf(video: seq<real>, audio: seq<real>, partner: seq<Option<nat>>): seq<Pair>
    requires |partner| <= |video|
  {
    if partner == [] then []
    else
      var n := |partner| - 1;
      PairsOf(video, audio, partner[..n])
      + (if partner[n].Some? && partner[n].value < |audio|
         then [Pair(video[n], audio[partner[n].value], audio[partner[n].value] - video[n])] else [])
  }

  function LoneFlashes(video: seq<real>, partner: seq<Option<nat>>): seq<Unmatched>
    requires |partner| <= |video|
  {
    if partner == [] then []
    else
      var n := |partner| - 1;
      LoneFlashes(video, partner[..n]) + (if partner[n].None? then [Flash(video[n])] else [])
  }

  function LoneBeeps(audio: seq<real>, partner: seq<Option<nat>>, n: nat): seq<Unmatched>
    requires n <= |audio|
  {
    if n == 0 then []
    else
      LoneBeeps(audio, partner, n - 1)
      + (if Free(partner, n - 1) then [Beep(audio[n - 1])] else [])
  }

  method PairMarkers(video: seq<real>, audio: seq<real>, window: real)
    returns (pairs: seq<Pair>, unmatched: seq<Unmatched>, worst: real, ghost partner: seq<Option<nat>>)
    ensures |partner| == |video| && Matching(video, audio, window, partner)
    ensures pairs == PairsOf(video, audio, partner)
    ensures unmatched == LoneFlashes(video, partner) + LoneBeeps(audio, partner, |audio|)
    // Every marker is in one pair or reported, and none in two: a pair uses up one of each kind.
    ensures 2 * |pairs| + |unmatched| == |video| + |audio|
    ensures forall p :: p in pairs ==> Abs(p.offset) <= worst
    ensures worst == 0.0 || exists p :: p in pairs && worst == Abs(p.offset)
  {
    pairs, unmatched := [], [];
    var taken: seq<Option<nat>> := [];
    for k := 0 to |video|
      invariant |taken| == k && Matching(video, audio, window, taken)
      invariant pairs == PairsOf(video, audio, taken) && unmatched == LoneFlashes(video, taken)
      invariant |pairs| + |unmatched| == k
    {
      var best := Nearest(video[k], audio, window, taken);
      if best.None? {
        unmatched := unmatched + [Flash(video[k])];
      } else {
        pairs := pairs + [Pair(video[k], audio[best.value], audio[best.value] - video[k])];
      }
      MatchOne(video, audio, window, taken, best);
      assert (taken + [best])[..k] == taken;
      taken := taken + [best];
    }
    partner := taken;
    ghost var flashes := unmatched;
    for j := 0 to |audio|
      invariant unmatched == flashes + LoneBeeps(audio, taken, j)
    {
      if Free(taken, j) {
        unmatched := unmatched + [Beep(audio[j])];
      }
    }
    EveryBeepOnce(video, audio, window, taken);
    worst := 0.0;
    for i := 0 to |pairs|
      invariant forall p :: p in pairs[..i] ==> Abs(p.offset) <= worst
      invariant worst == 0.0 || exists p :: p in pairs[..i] && worst == Abs(p.offset)
    {
      assert pairs[..i + 1] == pairs[..i] + [pairs[i]];
      if Abs(pairs[i].offset) > worst {
        worst := Abs(pairs[i].offset);
      }
    }
    assert pairs[..|pairs|] == pairs;
  }

  lemma MatchOne(video: seq<real>, audio: seq<real>, window: real, partner: seq<Option<nat>>, best: Option<nat>)
    requires Matching(video, audio, window, partner) && |partner| < |video|
    requires RightPartner(video, audio, window, partner + [best], |partner|)
    ensures Matching(video, audio, window, partner + [best])
  {
    var next := partner + [best];
    forall k | 0 <= k < |next|
      ensures RightPartner(video, audio, window, next, k)
    {
      if k < |partner| {
        assert next[..k] == partner[..k];
        assert RightPartner(video, audio, window, partner, k);
      }
    }
  }

  /** The beeps that are free, and those that are taken, are all the beeps. */
  lemma EveryBeepOnce(video: seq<real>, audio: seq<real>, window: real, partner: seq<Option<nat>>)
    requires Matching(video, audio, window, partner)
    ensures |PairsOf(video, audio, partner)| + |LoneBeeps(audio, partner, |audio|)| == |audio|
    decreases |partner|
  {
    if partner == [] {
      AllFree(audio, |audio|);
    } else {
      var n := |partner| - 1;
      var before := partner[..n];
      assert RightPartner(video, audio, window, partner, n);
      forall k | 0 <= k < n
        ensures RightPartner(video, audio, window, before, k)
      {
        assert RightPartner(video, audio, window, partner, k) && before[..k] == partner[..k];
      }
      EveryBeepOnce(video, audio, window, before);
      assert partner == before + [partner[n]];
      TakeOneBeep(audio, before, partner[n], |audio|);
    }
  }

  lemma {:induction false} AllFree(audio: seq<real>, n: nat)
    requires n <= |audio|
    ensures |LoneBeeps(audio, [], n)| == n
  {
    if n > 0 {
      AllFree(audio, n - 1);
    }
  }

  lemma {:induction false} TakeOneBeep(audio: seq<real>, before: seq<Option<nat>>, b: Option<nat>, n: nat)
    requires n <= |audio| && (b.Some? ==> Free(before, b.value))
    ensures |LoneBeeps(audio, before + [b], n)| + (if b.Some? && b.value < n then 1 else 0)
              == |LoneBeeps(audio, before, n)|
  {
    if n > 0 {
      TakeOneBeep(audio, before, b, n - 1);
    }
  }

  /** Nothing that could still be paired is left over: a lone flash and a lone beep are never within the window. */
  lemma NothingLeftToPair(video: seq<real>, audio: seq<real>, window: real, partner: seq<Option<nat>>, k: nat, j: nat)
    requires Matching(video, audio, window, partner) && k < |partner| && j < |audio|
    requires partner[k] == None && Free(partner, j)
    ensures !Near(video[k], audio[j], window)
  {
    assert RightPartner(video, audio, window, partner, k);
  }

  /** The markers fix the result: there is one such matching. */
  lemma {:induction false} OneMatching(
    video: seq<real>, audio: seq<real>, window: real, p: seq<Option<nat>>, q: seq<Option<nat>>, n: nat)
    requires Matching(video, audio, window, p) && Matching(video, audio, window, q)
    requires n <= |p| && n <= |q|
    ensures p[..n] == q[..n]
  {
    if n > 0 {
      OneMatching(video, audio, window, p, q, n - 1);
      assert RightPartner(video, audio, window, p, n - 1) && RightPartner(video, audio, window, q, n - 1);
      assert p[..n] == p[..n - 1] + [p[n - 1]] && q[..n] == q[..n - 1] + [q[n - 1]];
    }
  }

  /** The pairs reported are those of the matching, with how far the sound comes after the picture. */
  lemma {:induction false} PairsMean(video: seq<real>, audio: seq<real>, partner: seq<Option<nat>>, p: Pair)
    requires |partner| <= |video| && forall k :: 0 <= k < |partner| && partner[k].Some? ==> partner[k].value < |audio|
    ensures p in PairsOf(video, audio, partner) <==>
              exists k, b :: && 0 <= k < |partner| && 0 <= b < |audio| && partner[k] == Some(b)
                             && p == Pair(video[k], audio[b], audio[b] - video[k])
  {
    if partner != [] {
      var n := |partner| - 1;
      PairsMean(video, audio, partner[..n], p);
      forall k | 0 <= k < n
        ensures partner[..n][k] == partner[k]
      {
      }
    }
  }

  /** And the rest is reported: the flashes without a partner, and the beeps that are nobody's. */
  lemma {:induction false} LoneFlashesMean(video: seq<real>, partner: seq<Option<nat>>, u: Unmatched)
    requires |partner| <= |video|
    ensures u in LoneFlashes(video, partner) <==>
              exists k :: 0 <= k < |partner| && partner[k] == None && u == Flash(video[k])
  {
    if partner != [] {
      var n := |partner| - 1;
      LoneFlashesMean(video, partner[..n], u);
      forall k | 0 <= k < n
        ensures partner[..n][k] == partner[k]
      {
      }
    }
  }

  lemma {:induction false} LoneBeepsMean(audio: seq<real>, partner: seq<Option<nat>>, n: nat, u: Unmatched)
    requires n <= |audio|
    ensures u in LoneBeeps(audio, partner, n) <==>
              exists j :: 0 <= j < n && u == Beep(audio[j]) && forall k :: 0 <= k < |partner| ==> partner[k] != Some(j)
  {
    if n > 0 {
      LoneBeepsMean(audio, partner, n - 1, u);
    }
  }

  /** What is near is at most the window apart, whichever comes first. */
  lemma NearMeans(video: real, audio: real, window: real)
    ensures Near(video, audio, window) <==> video - window <= audio <= video + window
    ensures Abs(audio - video) == if audio >= video then audio - video else video - audio
  {
  }

  /** Nearest first is not always most: both flashes here have a beep of their own, and one is reported all the same. */
  lemma GreedyMayMiss()
    ensures Matching([0.0, 0.4], [0.2, -0.4], 0.5, [Some(0), None])
    ensures Near(0.0, -0.4, 0.5) && Near(0.4, 0.2, 0.5)
  {
    var p: seq<Option<nat>> := [Some(0), None];
    assert p[..0] == [] && p[..1] == [Some(0)];
    assert RightPartner([0.0, 0.4], [0.2, -0.4], 0.5, p, 0);
    assert RightPartner([0.0, 0.4], [0.2, -0.4], 0.5, p, 1);
  }
}
