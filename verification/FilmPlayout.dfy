/** From a plan to what is on air at an instant (backend/src/radio/filmPlayout.js, planToCues and cueAt). */
module FilmPlayout {
  import opened Common
  import opened FilmLibrary
  import opened FilmRotation
  import opened StableSort

  datatype Cue = Cue(id: string, kind: Kind, file: string, durMs: int, startMs: int, endMs: int)

  datatype Overlay = Overlay(at: int, filmId: string)

  /** Names the cue that starts too early and the one it cuts off. */
  datatype Overlap = Overlap(id: string, before: string)

  datatype Playlist = Playlist(cues: seq<Cue>, overlays: seq<Overlay>)

  datatype OnAirNow = OnAirNow(cue: Cue, offsetMs: int)

  predicate StartLe(x: Cue, y: Cue) { x.startMs <= y.startMs }

  function CuesOf(plan: seq<Entry>): seq<Cue> {
    if plan == [] then []
    else
      var p := plan[0];
      (if p.Airing? then [CueOf(p)] else []) + CuesOf(plan[1..])
  }

  function OverlaysOf(plan: seq<Entry>): seq<Overlay> {
    if plan == [] then []
    else (if plan[0].Promo? then [Overlay(plan[0].at, plan[0].filmId)] else []) + OverlaysOf(plan[1..])
  }

  ghost predicate Cuts(cues: seq<Cue>, i: nat) {
    1 <= i < |cues| && cues[i].startMs < cues[i - 1].endMs
  }

  /** The first cue that starts before the one in front of it has ended is the one `e` names. */
  ghost predicate FirstCut(cues: seq<Cue>, i: nat, e: Overlap) {
    && Cuts(cues, i) && e == Overlap(cues[i].id, cues[i - 1].id)
    && forall j :: 0 <= j < i ==> !Cuts(cues, j)
  }

  /** The films and Shorts of a plan as cues in time order, or the first two that overlap. */
  method PlanToCues(plan: seq<Entry>) returns (r: Result<Playlist, Overlap>)
    ensures r.Ok? ==> r.value == Playlist(SortBy(StartLe, CuesOf(plan)), OverlaysOf(plan))
    ensures r.Ok? ==> forall i :: !Cuts(SortBy(StartLe, CuesOf(plan)), i)
    ensures r.Err? ==> exists i: nat :: FirstCut(SortBy(StartLe, CuesOf(plan)), i, r.error)
  {
    var cues := SortBy(StartLe, CuesOf(plan));
    var i := 1;
    while i < |cues|
      invariant 1 <= i && (i <= |cues| || i == 1)
      invariant forall j :: 0 <= j < i ==> !Cuts(cues, j)
    {
      if cues[i].startMs < cues[i - 1].endMs {
        assert FirstCut(cues, i, Overlap(cues[i].id, cues[i - 1].id));
        return Err(Overlap(cues[i].id, cues[i - 1].id));
      }
      i := i + 1;
    }
    r := Ok(Playlist(cues, OverlaysOf(plan)));
  }

  predicate Covers(c: Cue, nowMs: int) {
    c.startMs <= nowMs < c.endMs
  }

  /** The cue on air at an instant and the offset into its file; None between cues. */
  method CueAt(cues: seq<Cue>, nowMs: int) returns (r: Option<OnAirNow>)
    ensures r.None? <==> forall i :: 0 <= i < |cues| ==> !Covers(cues[i], nowMs)
    ensures r.Some? ==>
              exists i :: && 0 <= i < |cues| && r.value == OnAirNow(cues[i], nowMs - cues[i].startMs)
                          && Covers(cues[i], nowMs) && forall j :: 0 <= j < i ==> !Covers(cues[j], nowMs)
  {
    for i := 0 to |cues|
      invariant forall j :: 0 <= j < i ==> !Covers(cues[j], nowMs)
    {
      if Covers(cues[i], nowMs) {
        return Some(OnAirNow(cues[i], nowMs - cues[i].startMs));
      }
    }
    r := None;
  }

  lemma {:induction false} CuesSkipPromos(plan: seq<Entry>)
    ensures CuesOf(plan) == CuesOf(Airings(plan)) && forall i :: 0 <= i < |Airings(plan)| ==> Airings(plan)[i].Airing?
  {
    if plan != [] {
      CuesSkipPromos(plan[1..]);
      var rest := Airings(plan[1..]);
      if plan[0].Airing? {
        assert Airings(plan) == [plan[0]] + rest && Airings(plan)[1..] == rest;
      } else {
        assert Airings(plan) == rest;
      }
    }
  }

  function CueOf(a: Entry): Cue
    requires a.Airing?
  {
    Cue(a.id, a.kind, a.file, a.durMs, a.at, a.at + a.durMs)
  }

  lemma {:induction false} CuesOneByOne(airs: seq<Entry>)
    requires forall i :: 0 <= i < |airs| ==> airs[i].Airing?
    ensures |CuesOf(airs)| == |airs| && forall i :: 0 <= i < |airs| ==> CuesOf(airs)[i] == CueOf(airs[i])
  {
    if airs != [] {
      CuesOneByOne(airs[1..]);
      assert CuesOf(airs) == [CueOf(airs[0])] + CuesOf(airs[1..]);
    }
  }

  /** The cues are the airings of the plan, one for one: same item, same file, on air from start to end. */
  lemma CuesOfAirings(plan: seq<Entry>)
    ensures |CuesOf(plan)| == |Airings(plan)|
    ensures forall i :: 0 <= i < |Airings(plan)| ==>
              var a, c := Airings(plan)[i], CuesOf(plan)[i];
              && a.Airing? && c.id == a.id && c.kind == a.kind && c.file == a.file && c.durMs == a.durMs
              && c.startMs == a.at && c.endMs == a.at + a.durMs
  {
    CuesSkipPromos(plan);
    CuesOneByOne(Airings(plan));
  }

  /** The cues are sorted by their start; those that start together keep the order of the plan. */
  lemma CuesInTimeOrder(cues: seq<Cue>, t: int)
    ensures var s := SortBy(StartLe, cues);
            && multiset(s) == multiset(cues) && (forall i, j :: 0 <= i < j < |s| ==> s[i].startMs <= s[j].startMs)
            && Filter((c: Cue) => c.startMs == t, s) == Filter((c: Cue) => c.startMs == t, cues)
  {
    SortBySorted(StartLe, cues);
    SortKeepsTies(StartLe, (c: Cue) => c.startMs == t, cues);
  }

  /** The overlays are the promos of the plan. */
  lemma {:induction false} OverlaysArePromos(plan: seq<Entry>, at: int, id: string)
    ensures Overlay(at, id) in OverlaysOf(plan) <==> Promo(at, id) in plan
  {
    if plan != [] {
      OverlaysArePromos(plan[1..], at, id);
      assert plan == [plan[0]] + plan[1..];
    }
  }

  /**
   * Any plan whose airings are disjoint, so any plan of PlanDay, is playable: the cues are its airings in order
   * and no two overlap.
   */
  lemma DisjointPlanIsPlayable(plan: seq<Entry>)
    requires Disjoint(Airings(plan))
    ensures SortBy(StartLe, CuesOf(plan)) == CuesOf(plan)
    ensures forall i, j :: 0 <= i < j < |CuesOf(plan)| ==> CuesOf(plan)[i].endMs <= CuesOf(plan)[j].startMs
  {
    CuesOfAirings(plan);
    SortedIsFixed(StartLe, CuesOf(plan));
  }

  /**
   * At any instant a playable plan has one thing on air or nothing: the answer of CueAt is the only cue that
   * covers the instant, with an offset inside its file.
   */
  lemma OnAirIsUnique(plan: seq<Entry>, nowMs: int, i: nat, j: nat)
    requires Disjoint(Airings(plan))
    requires i < |CuesOf(plan)| && j < |CuesOf(plan)|
    requires Covers(CuesOf(plan)[i], nowMs) && Covers(CuesOf(plan)[j], nowMs)
    ensures i == j && 0 <= nowMs - CuesOf(plan)[i].startMs < CuesOf(plan)[i].durMs
  {
    DisjointPlanIsPlayable(plan);
    CuesOfAirings(plan);
  }

  /** The answer at `nowMs` is the airing `a`: its file, from the point the clock has reached in it. */
  ghost predicate Plays(a: Entry, r: OnAirNow, nowMs: int) {
    && a.Airing? && r.cue.id == a.id && r.cue.kind == a.kind && r.cue.file == a.file
    && r.offsetMs == nowMs - a.at && 0 <= r.offsetMs < a.durMs
  }

  lemma NoCuts(plan: seq<Entry>)
    requires Disjoint(Airings(plan))
    ensures forall i :: !Cuts(SortBy(StartLe, CuesOf(plan)), i)
  {
    DisjointPlanIsPlayable(plan);
  }

  lemma AnswerIsRight(plan: seq<Entry>, nowMs: int, r: Option<OnAirNow>)
    requires Disjoint(Airings(plan))
    requires r.None? <==> forall i :: 0 <= i < |CuesOf(plan)| ==> !Covers(CuesOf(plan)[i], nowMs)
    requires r.Some? ==>
               exists i :: && 0 <= i < |CuesOf(plan)| && Covers(CuesOf(plan)[i], nowMs)
                           && r.value == OnAirNow(CuesOf(plan)[i], nowMs - CuesOf(plan)[i].startMs)
    ensures r.None? <==> forall a :: a in Airings(plan) ==> !(a.at <= nowMs < a.at + a.durMs)
    ensures r.Some? ==> exists a :: a in Airings(plan) && Plays(a, r.value, nowMs)
    ensures r.Some? ==> forall a :: a in Airings(plan) && a.at <= nowMs < a.at + a.durMs ==> Plays(a, r.value, nowMs)
  {
    CuesOfAirings(plan);
    hide Disjoint;
    forall i | 0 <= i < |Airings(plan)|
      ensures var a := Airings(plan)[i]; Covers(CuesOf(plan)[i], nowMs) <==> a.at <= nowMs < a.at + a.durMs
    {
    }
    if r.Some? {
      var i :| 0 <= i < |CuesOf(plan)| && Covers(CuesOf(plan)[i], nowMs)
               && r.value == OnAirNow(CuesOf(plan)[i], nowMs - CuesOf(plan)[i].startMs);
      assert Plays(Airings(plan)[i], r.value, nowMs);
      forall a | a in Airings(plan) && a.at <= nowMs < a.at + a.durMs
        ensures Plays(a, r.value, nowMs)
      {
        var j :| 0 <= j < |Airings(plan)| && Airings(plan)[j] == a;
        OnAirIsUnique(plan, nowMs, i, j);
      }
    }
  }

  /**
   * Playing a planned day never fails, and at every instant it puts on air exactly what the plan has there:
   * planDay, planToCues and cueAt end to end.
   */
  method PlayDay(library: seq<Item>, slots: seq<Slot>, recent: seq<Recent>, now: int, allowSf60: bool, nowMs: int)
    returns (onAir: Option<OnAirNow>, plan: seq<Entry>)
    requires forall it :: it in library ==> it.durMs > 0
    ensures Disjoint(Airings(plan))
    ensures onAir.None? <==> forall a :: a in Airings(plan) ==> !(a.at <= nowMs < a.at + a.durMs)
    ensures onAir.Some? ==> exists a :: a in Airings(plan) && Plays(a, onAir.value, nowMs)
    ensures onAir.Some? ==> forall a :: a in Airings(plan) && a.at <= nowMs < a.at + a.durMs ==>
                              Plays(a, onAir.value, nowMs)
  {
    hide Disjoint, GapKept, GapFromRecent, RightDay, Cuts, FirstCut, Covers, Plays;
    var empty;
    ghost var d, day, states;
    plan, empty, d, day, states := PlanDay(library, slots, recent, now, allowSf60);
    NoCuts(plan);
    var r := PlanToCues(plan);
    assert r.Ok? by {
      if r.Err? {
        SomeCut(SortBy(StartLe, CuesOf(plan)), r.error);
      }
    }
    onAir := CueAt(r.value.cues, nowMs);
    DisjointPlanIsPlayable(plan);
    AnswerIsRight(plan, nowMs, onAir);
  }

  lemma SomeCut(cues: seq<Cue>, e: Overlap)
    requires exists i: nat :: FirstCut(cues, i, e)
    ensures exists i: nat :: Cuts(cues, i)
  {
  }
}
