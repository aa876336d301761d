/**
 * One day of films and Shorts for the radio channel (backend/src/radio/filmRotation.js, planDay).
 * Instants and durations are whole milliseconds; the promo's wording is left out.
 */
module FilmRotation {
  import opened Common
  import opened FilmLibrary
  import opened StableSort

  const MIN_GAP_MS := 6 * 3_600_000
  const NEW_MS := 7 * 86_400_000
  const BREAK_MS := 5 * 60 * 1000
  const PROMO_LEAD_MS := 30 * 60_000

  datatype Slot = Slot(at: int, prime: bool)

  datatype Recent = Recent(id: string, at: int)

  datatype Entry =
    | Promo(at: int, filmId: string)
    | Airing(at: int, kind: Kind, id: string, file: string, durMs: int, prime: bool)

  datatype EmptyReason = StillOnAir | NoFilmOutsideGap

  datatype EmptySlot = EmptySlot(at: int, reason: EmptyReason)

  // ---- the repeat gap -------------------------------------------------------------------------

  type LastAir = map<string, int>

  /** The last entry for an id wins, as in the Map constructor. */
  function Seed(recent: seq<Recent>): LastAir {
    if recent == [] then map[] else Seed(recent[..|recent| - 1])[recent[|recent| - 1].id := recent[|recent| - 1].at]
  }

  predicate Eligible(lastAir: LastAir, id: string, at: int) {
    id !in lastAir || at - lastAir[id] >= MIN_GAP_MS
  }

  /** Airings in time order, none starting before the previous one has ended. */
  ghost predicate Disjoint(airs: seq<Entry>) {
    && (forall i :: 0 <= i < |airs| ==> airs[i].Airing? && airs[i].durMs > 0)
    && (forall i, j :: 0 <= i < j < |airs| ==> airs[i].at + airs[i].durMs <= airs[j].at)
  }

  /** Two airings of one id are never closer than the gap. */
  ghost predicate GapKept(airs: seq<Entry>) {
    forall i, j :: 0 <= i < j < |airs| && airs[i].Airing? && airs[j].Airing? && airs[i].id == airs[j].id ==>
      airs[j].at - airs[i].at >= MIN_GAP_MS
  }

  ghost predicate GapFromRecent(seed: LastAir, airs: seq<Entry>) {
    forall a :: a in airs && a.Airing? && a.id in seed ==> a.at - seed[a.id] >= MIN_GAP_MS
  }

  /** What the planner keeps true of the airings so far and its table of last airings. */
  ghost predicate LogOk(seed: LastAir, airs: seq<Entry>, lastAir: LastAir, until: Option<int>) {
    && Disjoint(airs) && GapKept(airs) && GapFromRecent(seed, airs)
    && (forall a :: a in airs ==>
          && a.Airing? && until.Some? && a.at + a.durMs <= until.value
          && a.id in lastAir && a.at <= lastAir[a.id])
    && (forall id :: id in seed ==> id in lastAir && seed[id] <= lastAir[id])
  }

  lemma LogExtends(seed: LastAir, airs: seq<Entry>, lastAir: LastAir, until: Option<int>, x: Entry)
    requires LogOk(seed, airs, lastAir, until)
    requires x.Airing? && x.durMs > 0 && Eligible(lastAir, x.id, x.at)
    requires until.Some? ==> until.value <= x.at
    ensures LogOk(seed, airs + [x], lastAir[x.id := x.at], Some(x.at + x.durMs))
  {
    var more := airs + [x];
    assert forall i :: 0 <= i < |airs| ==> more[i] in airs;
    assert forall a :: a in more ==> a in airs || a == x;
  }

  // ---- filling one break ----------------------------------------------------------------------

  /** Where a break stands: what has aired, the instant it has reached, how much is used, the rotation index. */
  datatype BreakState = BreakState(lastAir: LastAir, cursor: int, used: int, rot: nat)

  predicate Fits(shorts: seq<Item>, b: BreakState, j: nat)
    requires j < |shorts|
  {
    b.used + shorts[j].durMs <= BREAK_MS && Eligible(b.lastAir, shorts[j].id, b.cursor)
  }

  function Place(shorts: seq<Item>, b: BreakState, j: nat): BreakState
    requires j < |shorts|
  {
    var s := shorts[j];
    BreakState(b.lastAir[s.id := b.cursor], b.cursor + s.durMs, b.used + s.durMs, (j + 1) % |shorts|)
  }

  /** The `i`-th Short counted from the rotation index. */
  function Turn(shorts: seq<Item>, b: BreakState, i: nat): (j: nat)
    requires shorts != []
    ensures j < |shorts|
  {
    (b.rot + i) % |shorts|
  }

  /** `j` is the first Short from the rotation index on that fits. */
  ghost predicate FirstFit(shorts: seq<Item>, b: BreakState, j: nat)
    requires j < |shorts|
  {
    Fits(shorts, b, j)
    && exists i :: 0 <= i < |shorts| && j == Turn(shorts, b, i)
                   && forall k :: 0 <= k < i ==> !Fits(shorts, b, Turn(shorts, b, k))
  }

  function ShortAiring(s: Item, at: int): Entry {
    Airing(at, Short, s.id, s.file, s.durMs, false)
  }

  /**
   * A break so far: `trail` runs from `b0` to the current state, and each step placed the first Short of the
   * rotation that fitted, at the instant the previous item ended.
   */
  ghost predicate GreedySoFar(shorts: seq<Item>, b0: BreakState, picks: seq<nat>, trail: seq<BreakState>) {
    && |trail| == |picks| + 1 && trail[0] == b0
    && (forall k :: 0 <= k < |picks| ==>
          && picks[k] < |shorts| && FirstFit(shorts, trail[k], picks[k])
          && trail[k + 1] == Place(shorts, trail[k], picks[k]))
  }

  /** A finished break: at its end no Short fits any more. */
  ghost predicate GreedyBreak(shorts: seq<Item>, b0: BreakState, picks: seq<nat>, trail: seq<BreakState>) {
    && GreedySoFar(shorts, b0, picks, trail)
    && (forall j :: 0 <= j < |shorts| ==> !Fits(shorts, trail[|picks|], j))
  }

  ghost function PickedAirings(shorts: seq<Item>, picks: seq<nat>, trail: seq<BreakState>): seq<Entry>
    requires |trail| >= |picks| && forall k :: 0 <= k < |picks| ==> picks[k] < |shorts|
  {
    seq(|picks|, k requires 0 <= k < |picks| => ShortAiring(shorts[picks[k]], trail[k].cursor))
  }

  lemma GreedyStep(shorts: seq<Item>, b0: BreakState, picks: seq<nat>, trail: seq<BreakState>, j: nat)
    requires GreedySoFar(shorts, b0, picks, trail) && j < |shorts| && FirstFit(shorts, trail[|picks|], j)
    ensures GreedySoFar(shorts, b0, picks + [j], trail + [Place(shorts, trail[|picks|], j)])
    ensures PickedAirings(shorts, picks + [j], trail + [Place(shorts, trail[|picks|], j)])
         == PickedAirings(shorts, picks, trail) + [ShortAiring(shorts[j], trail[|picks|].cursor)]
  {
  }

  /** The Shorts that have not aired since instant `t`. */
  ghost function Unaired(shorts: seq<Item>, lastAir: LastAir, t: int): set<nat> {
    set j: nat | j < |shorts| && !(shorts[j].id in lastAir && lastAir[shorts[j].id] >= t)
  }

  /** A scan of |shorts| turns from any rotation index visits every Short. */
  lemma TurnsCoverAll(shorts: seq<Item>, b: BreakState, j: nat) returns (i: nat)
    requires j < |shorts| && b.rot < |shorts|
    ensures i < |shorts| && Turn(shorts, b, i) == j
  {
    i := if j >= b.rot then j - b.rot else j - b.rot + |shorts|;
    WrapsOnce(j, |shorts|);
  }

  lemma WrapsOnce(j: nat, n: nat)
    requires j < n
    ensures j % n == j && (j + n) % n == j
  {
  }

  /**
   * A Short placed in a break has not aired since the break began: the break is shorter than the repeat gap.
   * So every placement uses up at least one Short, which is why the restarted scan comes to an end.
   */
  lemma PlacementUsesUp(shorts: seq<Item>, b: BreakState, t: int, j: nat)
    requires j < |shorts| && Fits(shorts, b, j) && b.cursor == t + b.used && b.used >= 0 && shorts[j].durMs > 0
    ensures Unaired(shorts, Place(shorts, b, j).lastAir, t) < Unaired(shorts, b.lastAir, t)
  {
    assert j in Unaired(shorts, b.lastAir, t);
    assert j !in Unaired(shorts, Place(shorts, b, j).lastAir, t);
  }

  method FillBreak(shorts: seq<Item>, b0: BreakState, ghost seed: LastAir, ghost airs: seq<Entry>)
    returns (b: BreakState, aired: seq<Entry>, ghost picks: seq<nat>, ghost trail: seq<BreakState>)
    requires forall s :: s in shorts ==> s.durMs > 0
    requires b0.used == 0 && (shorts != [] ==> b0.rot < |shorts|)
    requires LogOk(seed, airs, b0.lastAir, Some(b0.cursor))
    ensures GreedyBreak(shorts, b0, picks, trail)
    ensures aired == PickedAirings(shorts, picks, trail)
    ensures b == trail[|picks|] && (shorts != [] ==> b.rot < |shorts|)
    ensures b.cursor == b0.cursor + b.used && 0 <= b.used <= BREAK_MS
    ensures LogOk(seed, airs + aired, b.lastAir, Some(b.cursor))
  {
    b, aired, picks, trail := b0, [], [], [b0];
    assert airs + aired == airs;
    var i := 0;
    while i < |shorts| && b.used < BREAK_MS
      invariant 0 <= i <= |shorts|
      invariant GreedySoFar(shorts, b0, picks, trail) && trail[|picks|] == b
      invariant aired == PickedAirings(shorts, picks, trail)
      invariant shorts != [] ==> b.rot < |shorts|
      invariant b.cursor == b0.cursor + b.used && 0 <= b.used <= BREAK_MS
      invariant LogOk(seed, airs + aired, b.lastAir, Some(b.cursor))
      invariant forall k :: 0 <= k < i ==> !Fits(shorts, b, Turn(shorts, b, k))
      decreases Unaired(shorts, b.lastAir, b0.cursor), |shorts| - i
    {
      var j := Turn(shorts, b, i);
      if !Fits(shorts, b, j) {
        i := i + 1;
      } else {
        var x := ShortAiring(shorts[j], b.cursor);
        GreedyStep(shorts, b0, picks, trail, j);
        PlacementUsesUp(shorts, b, b0.cursor, j);
        LogExtends(seed, airs + aired, b.lastAir, Some(b.cursor), x);
        assert airs + (aired + [x]) == (airs + aired) + [x];
        aired, picks := aired + [x], picks + [j];
        b := Place(shorts, b, j);
        trail := trail + [b];
        i := 0;
      }
    }
    NothingFits(shorts, b, i);
  }

  /** A scan that ran out of turns, or of room, leaves no Short that fits. */
  lemma NothingFits(shorts: seq<Item>, b: BreakState, i: nat)
    requires forall s :: s in shorts ==> s.durMs > 0
    requires shorts != [] ==> b.rot < |shorts|
    requires i >= |shorts| || b.used >= BREAK_MS
    requires i <= |shorts| && forall k :: 0 <= k < i ==> !Fits(shorts, b, Turn(shorts, b, k))
    ensures forall j :: 0 <= j < |shorts| ==> !Fits(shorts, b, j)
  {
    forall j: nat | j < |shorts|
      ensures !Fits(shorts, b, j)
    {
      if b.used < BREAK_MS {
        var k := TurnsCoverAll(shorts, b, j);
      } else {
        assert shorts[j] in shorts;
      }
    }
  }

  // ---- choosing the film of a slot ------------------------------------------------------------

  predicate IsNew(film: Item, now: int) {
    now - film.publishedAt < NEW_MS
  }

  predicate FirstOfSeries(films: seq<Item>, f: nat)
    requires f < |films|
  {
    forall g :: 0 <= g < f ==> films[g].series != films[f].series
  }

  /** The new episodes among the first-listed film of each series, as positions in `films`. */
  method NewestEpisodes(films: seq<Item>, now: int) returns (newest: seq<nat>)
    ensures forall i, j :: 0 <= i < j < |newest| ==> newest[i] < newest[j]
    ensures forall f: nat :: f in newest <==> f < |films| && IsNew(films[f], now) && FirstOfSeries(films, f)
  {
    newest := [];
    var seen: set<string> := {};
    for f := 0 to |films|
      invariant forall x :: x in seen <==> exists g :: 0 <= g < f && films[g].series == x
      invariant forall i :: 0 <= i < |newest| ==> newest[i] < f
      invariant forall i, j :: 0 <= i < j < |newest| ==> newest[i] < newest[j]
      invariant forall g: nat :: g in newest <==> g < f && IsNew(films[g], now) && FirstOfSeries(films, g)
    {
      if films[f].series !in seen {
        seen := seen + {films[f].series};
        if IsNew(films[f], now) {
          newest := newest + [f];
        }
      }
    }
  }

  /** Array.prototype.find over a pool of positions. */
  function FindEligible(films: seq<Item>, pool: seq<nat>, lastAir: LastAir, at: int): (r: Option<nat>)
    requires forall i :: 0 <= i < |pool| ==> pool[i] < |films|
    ensures r.None? ==> forall i :: 0 <= i < |pool| ==> !Eligible(lastAir, films[pool[i]].id, at)
    ensures r.Some? ==> exists i :: 0 <= i < |pool| && pool[i] == r.value && Eligible(lastAir, films[r.value].id, at)
                                    && forall k :: 0 <= k < i ==> !Eligible(lastAir, films[pool[k]].id, at)
  {
    if pool == [] then None
    else if Eligible(lastAir, films[pool[0]].id, at) then Some(pool[0])
    else
      var r := FindEligible(films, pool[1..], lastAir, at);
      assert r.Some? ==> exists i :: 1 <= i < |pool| && pool[i] == r.value && Eligible(lastAir, films[r.value].id, at)
                                     && forall k :: 0 <= k < i ==> !Eligible(lastAir, films[pool[k]].id, at) by {
        if r.Some? {
          var i :| 0 <= i < |pool| - 1 && pool[1..][i] == r.value
                   && forall k :: 0 <= k < i ==> !Eligible(lastAir, films[pool[1..][k]].id, at);
          assert pool[i + 1] == r.value;
          assert forall k :: 1 <= k < i + 1 ==> pool[k] == pool[1..][k - 1];
        }
      }
      assert forall i :: 1 <= i < |pool| ==> pool[i] == pool[1..][i - 1];
      r
  }

  function Others(newest: seq<nat>, n: nat): (r: seq<nat>)
    ensures forall f: nat :: f in r <==> f < n && f !in newest
    ensures forall i :: 0 <= i < |r| ==> r[i] < n
    ensures forall i, j :: 0 <= i < j < |r| ==> r[i] < r[j]
  {
    if n == 0 then [] else Others(newest, n - 1) + (if n - 1 in newest then [] else [n - 1])
  }

  function AllOf(n: nat): (r: seq<nat>)
    ensures |r| == n && forall i :: 0 <= i < n ==> r[i] == i
  {
    seq(n, i => i)
  }

  /**
   * The editorial choice for a slot: a prime slot wants a newest episode and any other slot wants another film,
   * in library order; only when nothing wanted may air does the first film of the library that may air get it.
   */
  ghost predicate RightFilm(
    films: seq<Item>, newest: seq<nat>, prime: bool, lastAir: LastAir, at: int, choice: Option<nat>)
  {
    match choice
    case None => forall g :: 0 <= g < |films| ==> !Eligible(lastAir, films[g].id, at)
    case Some(f) =>
      && f < |films| && Eligible(lastAir, films[f].id, at)
      && (if exists g: nat :: g < |films| && (g in newest) == prime && Eligible(lastAir, films[g].id, at)
          then (f in newest) == prime
               && forall g: nat :: g < f && (g in newest) == prime ==> !Eligible(lastAir, films[g].id, at)
          else forall g :: 0 <= g < f ==> !Eligible(lastAir, films[g].id, at))
  }

  method ChooseFilm(films: seq<Item>, newest: seq<nat>, prime: bool, lastAir: LastAir, at: int)
    returns (choice: Option<nat>)
    requires forall f :: f in newest ==> f < |films|
    requires forall i, j :: 0 <= i < j < |newest| ==> newest[i] < newest[j]
    ensures RightFilm(films, newest, prime, lastAir, at, choice)
  {
    hide RightFilm, FindEligible, Others, AllOf, Eligible;
    var wanted := if prime then newest else Others(newest, |films|);
    assert forall i :: 0 <= i < |wanted| ==> wanted[i] in wanted;
    choice := FindEligible(films, wanted, lastAir, at);
    if choice.Some? {
      FirstWanted(films, newest, prime, wanted, lastAir, at, choice.value);
    } else {
      choice := FindEligible(films, AllOf(|films|), lastAir, at);
      FirstOfAll(films, newest, prime, wanted, lastAir, at, choice);
    }
  }

  lemma FirstWanted(
    films: seq<Item>, newest: seq<nat>, prime: bool, wanted: seq<nat>, lastAir: LastAir, at: int, f: nat)
    requires forall g: nat :: g in wanted <==> g < |films| && (g in newest) == prime
    requires forall i :: 0 <= i < |wanted| ==> wanted[i] < |films|
    requires forall i, j :: 0 <= i < j < |wanted| ==> wanted[i] < wanted[j]
    requires FindEligible(films, wanted, lastAir, at) == Some(f)
    ensures RightFilm(films, newest, prime, lastAir, at, Some(f))
  {
    Ascending(films, wanted, lastAir, at, f);
    assert f in wanted && Eligible(lastAir, films[f].id, at);
  }

  lemma FirstOfAll(
    films: seq<Item>, newest: seq<nat>, prime: bool, wanted: seq<nat>, lastAir: LastAir, at: int, choice: Option<nat>)
    requires forall g: nat :: g in wanted <==> g < |films| && (g in newest) == prime
    requires forall i :: 0 <= i < |wanted| ==> wanted[i] < |films|
    requires FindEligible(films, wanted, lastAir, at).None?
    requires choice == FindEligible(films, AllOf(|films|), lastAir, at)
    ensures RightFilm(films, newest, prime, lastAir, at, choice)
  {
    var all := AllOf(|films|);
    forall g: nat | g < |films| && (g in newest) == prime
      ensures !Eligible(lastAir, films[g].id, at)
    {
      assert g in wanted;
    }
    if choice.Some? {
      Ascending(films, all, lastAir, at, choice.value);
      forall g: nat | g < |films|
        ensures g in all
      {
        assert all[g] == g;
      }
    } else {
      forall g: nat | g < |films|
        ensures !Eligible(lastAir, films[g].id, at)
      {
        assert all[g] == g;
      }
    }
  }

  /** In an ascending pool, the first position that may air is also the least one. */
  lemma Ascending(films: seq<Item>, pool: seq<nat>, lastAir: LastAir, at: int, f: nat)
    requires forall i :: 0 <= i < |pool| ==> pool[i] < |films|
    requires forall i, j :: 0 <= i < j < |pool| ==> pool[i] < pool[j]
    requires FindEligible(films, pool, lastAir, at) == Some(f)
    ensures forall g :: g in pool && g < f ==> !Eligible(lastAir, films[g].id, at)
  {
    var i :| 0 <= i < |pool| && pool[i] == f
             && forall k :: 0 <= k < i ==> !Eligible(lastAir, films[pool[k]].id, at);
    forall g | g in pool && g < f
      ensures !Eligible(lastAir, films[g].id, at)
    {
      var k :| 0 <= k < |pool| && pool[k] == g;
      assert k < i;
    }
  }

  // ---- the day --------------------------------------------------------------------------------

  datatype DayState = DayState(lastAir: LastAir, busyUntil: Option<int>, rot: nat)

  datatype Outcome = Busy | NoFilm | Aired(film: nat, picks: seq<nat>, trail: seq<BreakState>)

  /** What one slot came to, and the state it was decided in. */
  datatype Block = Block(slot: Slot, before: DayState, outcome: Outcome)

  /** What the planner works with: the films, the Shorts that may air, the newest episodes and the clock. */
  datatype Desk = Desk(films: seq<Item>, shorts: seq<Item>, newest: seq<nat>, now: int)

  ghost predicate OnAir(st: DayState, at: int) {
    st.busyUntil.Some? && at < st.busyUntil.value
  }

  function FilmAiring(f: Item, slot: Slot): Entry {
    Airing(slot.at, Film, f.id, f.file, f.durMs, slot.prime)
  }

  function BreakStart(st: DayState, f: Item, at: int): BreakState {
    BreakState(st.lastAir[f.id := at], at + f.durMs, 0, st.rot)
  }

  /** One slot decided rightly, leaving the planner in `next`. */
  ghost predicate RightBlock(d: Desk, b: Block, next: DayState) {
    var at := b.slot.at;
    match b.outcome
    case Busy => OnAir(b.before, at) && next == b.before
    case NoFilm =>
      && !OnAir(b.before, at) && next == b.before
      && RightFilm(d.films, d.newest, b.slot.prime, b.before.lastAir, at, None)
    case Aired(f, picks, trail) =>
      && !OnAir(b.before, at)
      && RightFilm(d.films, d.newest, b.slot.prime, b.before.lastAir, at, Some(f))
      && GreedyBreak(d.shorts, BreakStart(b.before, d.films[f], at), picks, trail)
      && next == DayState(trail[|picks|].lastAir, Some(trail[|picks|].cursor), trail[|picks|].rot)
  }

  /** A day of slots decided one after the other, each in the state its predecessor left. */
  ghost predicate RightDay(d: Desk, seed: LastAir, day: seq<Block>, states: seq<DayState>) {
    && |states| == |day| + 1 && states[0] == DayState(seed, None, 0)
    && forall k :: 0 <= k < |day| ==> day[k].before == states[k] && RightBlock(d, day[k], states[k + 1])
  }

  /** The film of a slot followed by its break. */
  ghost function AiringsOf(d: Desk, b: Block): seq<Entry> {
    match b.outcome
    case Aired(f, picks, trail) =>
      if f < |d.films| && |trail| >= |picks| && (forall k :: 0 <= k < |picks| ==> picks[k] < |d.shorts|)
      then [FilmAiring(d.films[f], b.slot)] + PickedAirings(d.shorts, picks, trail)
      else []
    case _ => []
  }

  ghost function PromosOf(d: Desk, b: Block): seq<Entry> {
    if b.outcome.Aired? && b.outcome.film < |d.films| && IsNew(d.films[b.outcome.film], d.now)
    then [Promo(b.slot.at - PROMO_LEAD_MS, d.films[b.outcome.film].id)]
    else []
  }

  ghost function EntriesOf(d: Desk, day: seq<Block>): seq<Entry> {
    if day == [] then []
    else
      var b := day[|day| - 1];
      EntriesOf(d, day[..|day| - 1]) + PromosOf(d, b) + AiringsOf(d, b)
  }

  ghost function EmptyOf(day: seq<Block>): seq<EmptySlot> {
    if day == [] then []
    else
      var b := day[|day| - 1];
      EmptyOf(day[..|day| - 1])
      + (match b.outcome
         case Busy => [EmptySlot(b.slot.at, StillOnAir)]
         case NoFilm => [EmptySlot(b.slot.at, NoFilmOutsideGap)]
         case Aired(_, _, _) => [])
  }

  predicate IsAiring(e: Entry) { e.Airing? }

  predicate AtLe(x: Entry, y: Entry) { x.at <= y.at }

  predicate SlotLe(x: Slot, y: Slot) { x.at <= y.at }

  function Airings(plan: seq<Entry>): seq<Entry> {
    Filter(IsAiring, plan)
  }

  lemma AiringsOfConcat(a: seq<Entry>, b: seq<Entry>)
    ensures Airings(a + b) == Airings(a) + Airings(b)
  {
    FilterConcat(IsAiring, a, b);
  }

  lemma {:induction false} AllAirings(a: seq<Entry>)
    requires forall i :: 0 <= i < |a| ==> a[i].Airing?
    ensures Airings(a) == a
  {
    if a != [] {
      AllAirings(a[1..]);
    }
  }

  /** Sorting the plan with its promos by time leaves films and Shorts in the order they were planned. */
  lemma SortKeepsAirings(raw: seq<Entry>)
    requires Disjoint(Airings(raw))
    ensures Airings(SortBy(AtLe, raw)) == Airings(raw)
  {
    SortFilter(AtLe, IsAiring, raw);
    assert Sorted(AtLe, Airings(raw));
    SortedIsFixed(AtLe, Airings(raw));
  }

  /** The Shorts the planner accepts from a library: those that name one of its films (or a permitted series). */
  function PlannableShorts(library: seq<Item>, filmIds: set<string>, allowSf60: bool): (r: seq<Item>)
    ensures forall s :: s in r <==> s in library && s.kind.Short? && !Barred(s, filmIds, {}, allowSf60)
  {
    if library == [] then []
    else
      (if library[0].kind.Short? && !Barred(library[0], filmIds, {}, allowSf60) then [library[0]] else [])
      + PlannableShorts(library[1..], filmIds, allowSf60)
  }

  function FilmsOf(library: seq<Item>): (r: seq<Item>)
    ensures forall f :: f in r <==> f in library && f.kind.Film?
  {
    if library == [] then [] else (if library[0].kind.Film? then [library[0]] else []) + FilmsOf(library[1..])
  }

  /** Decide one slot: skip it, leave it empty, or air a film and fill the break after it. */
  method PlanSlot(d: Desk, slot: Slot, st: DayState, ghost seed: LastAir, ghost airs: seq<Entry>)
    returns (next: DayState, entries: seq<Entry>, empty: seq<EmptySlot>, ghost b: Block)
    requires forall s :: s in d.shorts || s in d.films ==> s.durMs > 0
    requires forall f :: f in d.newest ==> f < |d.films|
    requires forall i, j :: 0 <= i < j < |d.newest| ==> d.newest[i] < d.newest[j]
    requires d.shorts != [] ==> st.rot < |d.shorts|
    requires LogOk(seed, airs, st.lastAir, st.busyUntil)
    ensures b.slot == slot && b.before == st && RightBlock(d, b, next)
    ensures entries == PromosOf(d, b) + AiringsOf(d, b)
    ensures EmptyOf([b]) == empty
    ensures d.shorts != [] ==> next.rot < |d.shorts|
    ensures LogOk(seed, airs + AiringsOf(d, b), next.lastAir, next.busyUntil)
  {
    hide LogOk, RightFilm, GreedyBreak, PickedAirings, Eligible;
    next, entries, empty := st, [], [];
    assert airs + [] == airs;
    var at := slot.at;
    if st.busyUntil.Some? && at < st.busyUntil.value {
      empty := [EmptySlot(at, StillOnAir)];
      b := Block(slot, st, Busy);
      return;
    }
    var choice := ChooseFilm(d.films, d.newest, slot.prime, st.lastAir, at);
    if choice.None? {
      empty := [EmptySlot(at, NoFilmOutsideGap)];
      b := Block(slot, st, NoFilm);
      return;
    }
    ChoiceMayAir(d.films, d.newest, slot.prime, st.lastAir, at, choice);
    var film := d.films[choice.value];
    assert film in d.films;
    LogExtends(seed, airs, st.lastAir, st.busyUntil, FilmAiring(film, slot));
    var end, aired, picks, trail :=
      FillBreak(d.shorts, BreakStart(st, film, at), seed, airs + [FilmAiring(film, slot)]);
    if IsNew(film, d.now) {
      entries := [Promo(at - PROMO_LEAD_MS, film.id)];
    }
    entries := entries + ([FilmAiring(film, slot)] + aired);
    next := DayState(end.lastAir, Some(end.cursor), end.rot);
    b := Block(slot, st, Aired(choice.value, picks, trail));
    BreakShape(d.shorts, BreakStart(st, film, at), picks, trail);
    assert airs + ([FilmAiring(film, slot)] + aired) == (airs + [FilmAiring(film, slot)]) + aired;
  }

  lemma ChoiceMayAir(
    films: seq<Item>, newest: seq<nat>, prime: bool, lastAir: LastAir, at: int, choice: Option<nat>)
    requires RightFilm(films, newest, prime, lastAir, at, choice) && choice.Some?
    ensures choice.value < |films| && Eligible(lastAir, films[choice.value].id, at)
  {
  }

  lemma BreakShape(shorts: seq<Item>, b0: BreakState, picks: seq<nat>, trail: seq<BreakState>)
    requires GreedyBreak(shorts, b0, picks, trail)
    ensures |trail| == |picks| + 1 && forall k :: 0 <= k < |picks| ==> picks[k] < |shorts|
  {
  }

  lemma SeedIsOk(seed: LastAir)
    ensures LogOk(seed, [], seed, None)
  {
  }

  lemma LogMeans(seed: LastAir, airs: seq<Entry>, lastAir: LastAir, until: Option<int>)
    requires LogOk(seed, airs, lastAir, until)
    ensures Disjoint(airs) && GapKept(airs) && GapFromRecent(seed, airs)
  {
  }

  lemma DayBegins(d: Desk, seed: LastAir)
    ensures RightDay(d, seed, [], [DayState(seed, None, 0)]) && EntriesOf(d, []) == [] && EmptyOf([]) == []
    ensures Airings([]) == []
  {
  }

  /**
   * Plan a day. Every slot, in time order, is decided once; the plan is the films, breaks and promos those
   * decisions give, in time order; no two items overlap; and no film or Short comes back within the repeat gap
   * of an earlier airing in this plan or of the last airing `recent` records for it.
   */
  method PlanDay(library: seq<Item>, slots: seq<Slot>, recent: seq<Recent>, now: int, allowSf60: bool)
    returns (plan: seq<Entry>, empty: seq<EmptySlot>, ghost d: Desk, ghost day: seq<Block>, ghost states: seq<DayState>)
    requires forall it :: it in library ==> it.durMs > 0
    ensures d.films == FilmsOf(library) && d.now == now
    ensures d.shorts == PlannableShorts(library, FilmIds(library), allowSf60)
    ensures forall f: nat :: f in d.newest <==> f < |d.films| && IsNew(d.films[f], now) && FirstOfSeries(d.films, f)
    ensures |day| == |slots| && forall k :: 0 <= k < |day| ==> day[k].slot == SortBy(SlotLe, slots)[k]
    ensures RightDay(d, Seed(recent), day, states)
    ensures plan == SortBy(AtLe, EntriesOf(d, day))
    ensures Airings(plan) == Airings(EntriesOf(d, day))
    ensures empty == EmptyOf(day)
    ensures Disjoint(Airings(plan)) && GapKept(Airings(plan)) && GapFromRecent(Seed(recent), Airings(plan))
  {
    hide LogOk, RightDay, EntriesOf, EmptyOf, AiringsOf, PromosOf, Airings, Barred;
    var films := FilmsOf(library);
    var shorts := PlannableShorts(library, FilmIds(library), allowSf60);
    var newest := NewestEpisodes(films, now);
    var desk := Desk(films, shorts, newest, now);
    d := desk;
    var seed := Seed(recent);
    var st := DayState(seed, None, 0);
    var ordered := SortBy(SlotLe, slots);
    plan, empty, day, states := [], [], [], [st];
    ghost var airs := [];
    SeedIsOk(seed);
    DayBegins(d, seed);
    for k := 0 to |ordered|
      invariant |day| == k && forall i :: 0 <= i < k ==> day[i].slot == ordered[i]
      invariant RightDay(d, seed, day, states)
      invariant |states| == k + 1 && states[k] == st
      invariant plan == EntriesOf(d, day) && empty == EmptyOf(day)
      invariant airs == Airings(plan)
      invariant d.shorts != [] ==> st.rot < |d.shorts|
      invariant LogOk(seed, airs, st.lastAir, st.busyUntil)
    {
      var next, entries, none, b := PlanSlot(desk, ordered[k], st, seed, airs);
      RightDayGrows(d, seed, day, states, b, next);
      SlotAirings(d, b, plan);
      plan, empty, day := plan + entries, empty + none, day + [b];
      assert plan == EntriesOf(d, day);
      airs := airs + AiringsOf(d, b);
      st, states := next, states + [next];
    }
    LogMeans(seed, airs, st.lastAir, st.busyUntil);
    SortKeepsAirings(plan);
    plan := SortBy(AtLe, plan);
  }

  lemma RightDayGrows(d: Desk, seed: LastAir, day: seq<Block>, states: seq<DayState>, b: Block, next: DayState)
    requires RightDay(d, seed, day, states) && b.before == states[|day|] && RightBlock(d, b, next)
    ensures RightDay(d, seed, day + [b], states + [next])
    ensures EntriesOf(d, day + [b]) == EntriesOf(d, day) + (PromosOf(d, b) + AiringsOf(d, b))
    ensures EmptyOf(day + [b]) == EmptyOf(day) + EmptyOf([b])
  {
    hide RightBlock, PromosOf, AiringsOf;
    assert (day + [b])[..|day|] == day;
    assert EmptyOf([b][..0]) == [];
  }

  lemma PromosThenAirings(plan: seq<Entry>, p: seq<Entry>, a: seq<Entry>)
    requires |p| <= 1 && (p != [] ==> p[0].Promo?)
    requires forall i :: 0 <= i < |a| ==> a[i].Airing?
    ensures Airings(plan + (p + a)) == Airings(plan) + a
  {
    assert Airings([]) == [] && (p != [] ==> p[1..] == []);
    assert Airings(p) == Airings([]);
    hide Airings;
    AiringsOfConcat(plan, p + a);
    AiringsOfConcat(p, a);
    AllAirings(a);
    assert [] + a == a;
  }

  lemma SlotAirings(d: Desk, b: Block, plan: seq<Entry>)
    ensures Airings(plan + (PromosOf(d, b) + AiringsOf(d, b))) == Airings(plan) + AiringsOf(d, b)
  {
    PromosThenAirings(plan, PromosOf(d, b), AiringsOf(d, b));
  }
}
