/** What a planned day means to the channel: consequences of PlanDay's contract. */
module FilmDayLaws {
  import opened FilmLibrary
  import opened FilmRotation
  import opened StableSort

  /**
   * A break runs without a hole from the end of its film: each Short starts when the item before it ends, the
   * Shorts together take at most BREAK_MS, and none of them is aired twice.
   */
  lemma {:induction false} BreakIsContiguous(
    shorts: seq<Item>, b0: BreakState, picks: seq<nat>, trail: seq<BreakState>, k: nat)
    requires GreedyBreak(shorts, b0, picks, trail) && b0.used == 0 && k <= |picks|
    requires forall s :: s in shorts ==> s.durMs > 0
    ensures trail[k].cursor == b0.cursor + trail[k].used
    ensures 0 <= trail[k].used <= BREAK_MS
    ensures var a := PickedAirings(shorts, picks, trail);
            && (forall i :: 0 <= i < k ==> a[i].at == (if i == 0 then b0.cursor else a[i - 1].at + a[i - 1].durMs))
            && (k > 0 ==> trail[k].cursor == a[k - 1].at + a[k - 1].durMs)
            && (forall i :: 0 <= i < k ==> a[i].id in trail[k].lastAir && trail[k].lastAir[a[i].id] >= b0.cursor)
            && (forall i, j :: 0 <= i < j < k ==> a[i].id != a[j].id)
  {
    if k > 0 {
      BreakIsContiguous(shorts, b0, picks, trail, k - 1);
      var s := shorts[picks[k - 1]];
      assert s in shorts;
      assert Fits(shorts, trail[k - 1], picks[k - 1]);
      assert trail[k] == Place(shorts, trail[k - 1], picks[k - 1]);
    }
  }

  /**
   * In a library listed newest first, the new episodes PlanDay prefers at prime time are exactly the new films
   * that no other film of their series is newer than (ties going to the one listed first).
   */
  lemma NewestIsNewest(films: seq<Item>, now: int, newest: seq<nat>, f: nat)
    requires forall i, j :: 0 <= i < j < |films| ==> films[i].publishedAt >= films[j].publishedAt
    requires forall g: nat :: g in newest <==> g < |films| && IsNew(films[g], now) && FirstOfSeries(films, g)
    requires f < |films|
    ensures f in newest ==>
              forall g :: 0 <= g < |films| && films[g].series == films[f].series ==>
                films[g].publishedAt <= films[f].publishedAt
    ensures IsNew(films[f], now)
            && (forall g :: 0 <= g < |films| && g != f && films[g].series == films[f].series ==>
                  films[g].publishedAt < films[f].publishedAt)
            ==> f in newest
  {
    if f in newest {
      forall g | 0 <= g < |films| && films[g].series == films[f].series
        ensures films[g].publishedAt <= films[f].publishedAt
      {
        assert g >= f;
      }
    } else if IsNew(films[f], now) {
      var g :| 0 <= g < f && films[g].series == films[f].series;
      assert films[g].publishedAt >= films[f].publishedAt;
    }
  }

  ghost predicate IsFilmAiring(e: Entry) { e.Airing? && e.kind.Film? }

  ghost function FilmCount(entries: seq<Entry>): nat {
    if entries == [] then 0
    else FilmCount(entries[..|entries| - 1]) + (if IsFilmAiring(entries[|entries| - 1]) then 1 else 0)
  }

  lemma {:induction false} FilmCountConcat(a: seq<Entry>, b: seq<Entry>)
    ensures FilmCount(a + b) == FilmCount(a) + FilmCount(b)
  {
    if b == [] {
      assert a + b == a;
    } else {
      assert (a + b)[..|a + b| - 1] == a + b[..|b| - 1];
      FilmCountConcat(a, b[..|b| - 1]);
    }
  }

  lemma {:induction false} NoFilmsCounted(a: seq<Entry>)
    requires forall i :: 0 <= i < |a| ==> !IsFilmAiring(a[i])
    ensures FilmCount(a) == 0
  {
    if a != [] {
      NoFilmsCounted(a[..|a| - 1]);
    }
  }

  /** What one slot contributes: either one film, at the slot's own instant, or one report of an empty slot. */
  lemma SlotAnswered(d: Desk, b: Block, next: DayState)
    requires RightBlock(d, b, next)
    ensures FilmCount(PromosOf(d, b) + AiringsOf(d, b)) + |EmptyOf([b])| == 1
    ensures FilmCount(PromosOf(d, b) + AiringsOf(d, b)) == 1 ==>
              AiringsOf(d, b) != [] && IsFilmAiring(AiringsOf(d, b)[0]) && AiringsOf(d, b)[0].at == b.slot.at
  {
    assert [b][..0] == [];
    match b.outcome
    case Busy =>
      assert PromosOf(d, b) + AiringsOf(d, b) == [];
    case NoFilm =>
      assert PromosOf(d, b) + AiringsOf(d, b) == [];
    case Aired(f, picks, trail) =>
      var film := [FilmAiring(d.films[f], b.slot)];
      var rest := PickedAirings(d.shorts, picks, trail);
      FilmCountConcat(PromosOf(d, b), film + rest);
      FilmCountConcat(film, rest);
      NoFilmsCounted(PromosOf(d, b));
      NoFilmsCounted(rest);
      assert film[..0] == [];
  }

  lemma DayPrefix(d: Desk, seed: LastAir, day: seq<Block>, states: seq<DayState>)
    requires day != [] && RightDay(d, seed, day, states)
    ensures RightDay(d, seed, day[..|day| - 1], states[..|day|])
    ensures RightBlock(d, day[|day| - 1], states[|day|])
  {
    hide RightBlock;
  }

  lemma EmptyGrows(day: seq<Block>)
    requires day != []
    ensures |EmptyOf(day)| == |EmptyOf(day[..|day| - 1])| + |EmptyOf([day[|day| - 1]])|
  {
    assert [day[|day| - 1]][..0] == [];
  }

  /** Every slot of the day is answered: the films planned and the empty slots reported are as many as the slots. */
  lemma {:induction false} EverySlotAnswered(d: Desk, seed: LastAir, day: seq<Block>, states: seq<DayState>)
    requires |states| == |day| + 1 && RightDay(d, seed, day, states)
    ensures FilmCount(EntriesOf(d, day)) + |EmptyOf(day)| == |day|
  {
    hide RightDay, RightBlock, PromosOf, AiringsOf, IsFilmAiring;
    if day != [] {
      var n := |day| - 1;
      DayPrefix(d, seed, day, states);
      EverySlotAnswered(d, seed, day[..n], states[..|day|]);
      SlotAnswered(d, day[n], states[|day|]);
      FilmCountConcat(EntriesOf(d, day[..n]), PromosOf(d, day[n]) + AiringsOf(d, day[n]));
      assert EntriesOf(d, day) == EntriesOf(d, day[..n]) + (PromosOf(d, day[n]) + AiringsOf(d, day[n]));
      EmptyGrows(day);
    }
  }

  /** The slot aired the film `id`, less than seven days old, exactly half an hour after `at`. */
  ghost predicate Announces(d: Desk, b: Block, at: int, id: string) {
    && b.outcome.Aired? && b.outcome.film < |d.films| && b.slot.at == at + 1_800_000
    && d.now - d.films[b.outcome.film].publishedAt < 604_800_000 && d.films[b.outcome.film].id == id
  }

  lemma PromoOfSlot(d: Desk, b: Block, at: int, id: string)
    ensures Promo(at, id) in PromosOf(d, b) + AiringsOf(d, b) <==> Announces(d, b, at, id)
  {
    assert Promo(at, id) !in AiringsOf(d, b);
  }

  lemma {:induction false} PromosOfDay(d: Desk, day: seq<Block>, at: int, id: string)
    ensures Promo(at, id) in EntriesOf(d, day) <==> exists k :: 0 <= k < |day| && Announces(d, day[k], at, id)
  {
    hide Announces, AiringsOf, PromosOf;
    if day != [] {
      var n := |day| - 1;
      PromosOfDay(d, day[..n], at, id);
      PromoOfSlot(d, day[n], at, id);
      assert EntriesOf(d, day) == EntriesOf(d, day[..n]) + (PromosOf(d, day[n]) + AiringsOf(d, day[n]));
      assert forall k :: 0 <= k < n ==> day[..n][k] == day[k];
    }
  }

  /** Every new film in the plan is announced half an hour before it airs, and nothing else is announced. */
  lemma PromosAnnounceNewFilms(d: Desk, day: seq<Block>, plan: seq<Entry>, at: int, id: string)
    requires plan == SortBy(AtLe, EntriesOf(d, day))
    ensures Promo(at, id) in plan <==> exists k :: 0 <= k < |day| && Announces(d, day[k], at, id)
  {
    PromosOfDay(d, day, at, id);
    SortByMembers(AtLe, EntriesOf(d, day), Promo(at, id));
  }

  /** The history a plan leaves for the next day: one line per airing, in the plan's order. */
  function History(airs: seq<Entry>): seq<Recent> {
    if airs == [] then []
    else
      var a := airs[|airs| - 1];
      History(airs[..|airs| - 1]) + (if a.Airing? then [Recent(a.id, a.at)] else [])
  }

  lemma {:induction false} HistorySeedsLastAiring(airs: seq<Entry>, a: Entry)
    requires Disjoint(airs) && a in airs
    ensures a.id in Seed(History(airs)) && Seed(History(airs))[a.id] >= a.at
  {
    var n := |airs| - 1;
    var h := History(airs[..n]);
    assert History(airs)[..|h|] == h;
    if a in airs[..n] {
      HistorySeedsLastAiring(airs[..n], a);
      assert airs[..n][..n] == airs[..n];
      var i :| 0 <= i < n && airs[i] == a;
    } else {
      assert a == airs[n];
    }
  }

  /**
   * Days chained by their history keep the gap between them: if today's plan respects the airings yesterday's
   * plan left behind, then over both days together no film or Short repeats within MIN_GAP_MS.
   */
  lemma GapAcrossDays(yesterday: seq<Entry>, today: seq<Entry>)
    requires Disjoint(yesterday) && GapKept(yesterday)
    requires GapKept(today) && GapFromRecent(Seed(History(yesterday)), today)
    ensures GapKept(yesterday + today)
  {
    var both := yesterday + today;
    forall i, j | 0 <= i < j < |both| && both[i].Airing? && both[j].Airing? && both[i].id == both[j].id
      ensures both[j].at - both[i].at >= MIN_GAP_MS
    {
      if i < |yesterday| <= j {
        HistorySeedsLastAiring(yesterday, both[i]);
        assert both[j] in today;
      }
    }
  }
}
