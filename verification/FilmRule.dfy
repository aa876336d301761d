/**
 * The day plan as one rule (backend/src/radio/filmRotation.js, planDay): what each slot and each break is filled with,
 * told from the library, the history and what has aired before it, without the planner's own bookkeeping.
 */
module FilmRule {
  import opened Common
  import opened FilmLibrary
  import opened FilmRotation
  import opened StableSort

  /** Less than six hours after the last airing in the history, or an airing of this plan. */
  ghost predicate TooSoon(recent: seq<Recent>, airs: seq<Entry>, id: string, t: int) {
    || (exists i :: LastOf(recent, id, i) && t - recent[i].at < 21_600_000)
    || (exists a :: a in airs && a.Airing? && a.id == id && t - a.at < 21_600_000)
  }

  /** The last line of the history for `id`. */
  ghost predicate LastOf(recent: seq<Recent>, id: string, i: int) {
    0 <= i < |recent| && recent[i].id == id && forall j :: i < j < |recent| ==> recent[j].id != id
  }

  ghost predicate StillOn(airs: seq<Entry>, t: int) {
    exists a :: a in airs && a.Airing? && t < a.at + a.durMs
  }

  // ---- the break ------------------------------------------------------------------------------

  /** Short `j` may air at `t`: it ends within five minutes of the film's end, and it is not too soon. */
  ghost predicate MayFollow(shorts: seq<Item>, recent: seq<Recent>, airs: seq<Entry>, filmEnd: int, t: int, j: nat)
    requires j < |shorts|
  {
    t + shorts[j].durMs <= filmEnd + 300_000 && !TooSoon(recent, airs, shorts[j].id, t)
  }

  /** How far `j` is from `start`, going round. */
  function Offset(n: nat, start: nat, j: nat): int {
    if j >= start then j - start else j - start + n
  }

  /** `j` is the first Short, going round from `start`, that may air. */
  ghost predicate InTurn(
    shorts: seq<Item>, recent: seq<Recent>, airs: seq<Entry>, filmEnd: int, t: int, start: nat, j: nat)
  {
    && j < |shorts| && MayFollow(shorts, recent, airs, filmEnd, t, j)
    && forall i: nat :: i < |shorts| && Offset(|shorts|, start, i) < Offset(|shorts|, start, j) ==>
         !MayFollow(shorts, recent, airs, filmEnd, t, i)
  }

  /** The turn after the Shorts `picks`: one past the last of them, or as it was. */
  function TurnAfter(start: nat, picks: seq<nat>): nat {
    if picks == [] then start else picks[|picks| - 1] + 1
  }

  function EndOf(a: Entry): int {
    if a.Airing? then a.at + a.durMs else a.at
  }

  function ShortAt(s: Item, t: int): Entry {
    Airing(t, Short, s.id, s.file, s.durMs, false)
  }

  /**
   * The break `aired[1..]` after the film `aired[0]`, with `airs` aired before: each Short starts when the item before
   * it ends and is the one whose turn it is; the break ends when no Short may follow.
   */
  ghost predicate RuleBreak(
    shorts: seq<Item>, recent: seq<Recent>, airs: seq<Entry>, start: nat, picks: seq<nat>, aired: seq<Entry>)
  {
    && |aired| == |picks| + 1
    && (forall m :: 0 <= m < |picks| ==> RulePick(shorts, recent, airs, start, picks, aired, m))
    && forall j: nat :: j < |shorts| ==>
         !MayFollow(shorts, recent, airs + aired, EndOf(aired[0]), EndOf(aired[|picks|]), j)
  }

  ghost predicate RulePick(
    shorts: seq<Item>, recent: seq<Recent>, airs: seq<Entry>, start: nat, picks: seq<nat>, aired: seq<Entry>, m: nat)
    requires m < |picks| && |aired| == |picks| + 1
  {
    && InTurn(shorts, recent, airs + aired[..m + 1], EndOf(aired[0]), EndOf(aired[m]), TurnAfter(start, picks[..m]),
              picks[m])
    && aired[m + 1] == ShortAt(shorts[picks[m]], EndOf(aired[m]))
  }

  // ---- the planner's table says the same -------------------------------------------------------

  /** The table of last airings answers the question of the gap as the history and the plan do. */
  ghost predicate Knows(recent: seq<Recent>, airs: seq<Entry>, lastAir: LastAir) {
    forall id: string, t: int :: Eligible(lastAir, id, t) <==> !TooSoon(recent, airs, id, t)
  }

  lemma {:induction false} SeedIsLast(recent: seq<Recent>, id: string, i: int)
    ensures id in Seed(recent) <==> exists r :: r in recent && r.id == id
    ensures LastOf(recent, id, i) ==> id in Seed(recent) && Seed(recent)[id] == recent[i].at
    ensures id in Seed(recent) ==> exists i :: LastOf(recent, id, i)
  {
    if recent != [] {
      var n := |recent| - 1;
      SeedIsLast(recent[..n], id, i);
      assert recent == recent[..n] + [recent[n]];
      if recent[n].id == id {
        assert LastOf(recent, id, n);
      } else if id in Seed(recent[..n]) {
        var k :| LastOf(recent[..n], id, k);
        assert LastOf(recent, id, k);
      }
      assert LastOf(recent, id, i) && i < n ==> LastOf(recent[..n], id, i);
    }
  }

  lemma SeedKnows(recent: seq<Recent>)
    ensures Knows(recent, [], Seed(recent))
  {
    forall id: string, t: int
      ensures Eligible(Seed(recent), id, t) <==> !TooSoon(recent, [], id, t)
    {
      SeedIsLast(recent, id, 0);
      if id in Seed(recent) {
        var i :| LastOf(recent, id, i);
        SeedIsLast(recent, id, i);
      }
    }
  }

  lemma AiringKnows(recent: seq<Recent>, airs: seq<Entry>, lastAir: LastAir, x: Entry)
    requires Knows(recent, airs, lastAir) && x.Airing? && Eligible(lastAir, x.id, x.at)
    ensures Knows(recent, airs + [x], lastAir[x.id := x.at])
  {
    forall id: string, t: int
      ensures TooSoon(recent, airs + [x], id, t) <==>
                TooSoon(recent, airs, id, t) || (id == x.id && t - x.at < 21_600_000)
      ensures Eligible(lastAir[x.id := x.at], id, t) <==> !TooSoon(recent, airs + [x], id, t)
    {
      AskOneMore(recent, airs, x, id, t);
      assert Eligible(lastAir, id, t) <==> !TooSoon(recent, airs, id, t);
      hide TooSoon;
    }
  }

  lemma AskOneMore(recent: seq<Recent>, airs: seq<Entry>, x: Entry, id: string, t: int)
    requires x.Airing?
    ensures TooSoon(recent, airs + [x], id, t) <==>
              TooSoon(recent, airs, id, t) || (id == x.id && t - x.at < 21_600_000)
  {
    hide LastOf;
    forall a
      ensures a in airs + [x] <==> a in airs || a == x
    {
    }
  }

  // ---- a break is filled by the rule -----------------------------------------------------------

  /** The planner's index for the turn `start`. */
  function Wrapped(n: nat, start: nat): nat {
    if start == n then 0 else start
  }

  lemma TurnIsOffset(shorts: seq<Item>, b: BreakState, start: nat, i: nat)
    requires i < |shorts| && start <= |shorts| && b.rot == Wrapped(|shorts|, start)
    ensures Offset(|shorts|, start, Turn(shorts, b, i)) == i
    ensures 0 <= Offset(|shorts|, start, i) < |shorts| && Turn(shorts, b, Offset(|shorts|, start, i)) == i
  {
    if b.rot + i >= |shorts| {
      WrapsOnce(b.rot + i - |shorts|, |shorts|);
    } else {
      WrapsOnce(b.rot + i, |shorts|);
    }
    WrapsOnce(i, |shorts|);
  }

  lemma FirstIsInTurn(
    shorts: seq<Item>, recent: seq<Recent>, airs: seq<Entry>, filmEnd: int, b: BreakState, start: nat, j: nat)
    requires Knows(recent, airs, b.lastAir) && b.cursor == filmEnd + b.used
    requires start <= |shorts| && b.rot == Wrapped(|shorts|, start)
    requires j < |shorts| && FirstFit(shorts, b, j)
    ensures InTurn(shorts, recent, airs, filmEnd, b.cursor, start, j)
  {
    hide TooSoon, Eligible, Turn, Offset;
    var i :| 0 <= i < |shorts| && j == Turn(shorts, b, i)
             && forall k :: 0 <= k < i ==> !Fits(shorts, b, Turn(shorts, b, k));
    TurnIsOffset(shorts, b, start, i);
    forall k: nat | k < |shorts| && Offset(|shorts|, start, k) < Offset(|shorts|, start, j)
      ensures !MayFollow(shorts, recent, airs, filmEnd, b.cursor, k)
    {
      TurnIsOffset(shorts, b, start, k);
      assert !Fits(shorts, b, Turn(shorts, b, Offset(|shorts|, start, k)));
    }
  }

  /** Where the planner stands after `k` picks of a break. */
  ghost predicate StandsAt(
    shorts: seq<Item>, recent: seq<Recent>, airs: seq<Entry>, start: nat, picks: seq<nat>, aired: seq<Entry>, k: nat,
    b: BreakState)
    requires k <= |picks| && |aired| == |picks| + 1
  {
    && Knows(recent, airs + aired[..k + 1], b.lastAir)
    && b.cursor == EndOf(aired[k]) && b.cursor == EndOf(aired[0]) + b.used
    && TurnAfter(start, picks[..k]) <= |shorts| && b.rot == Wrapped(|shorts|, TurnAfter(start, picks[..k]))
  }

  lemma OnePick(
    shorts: seq<Item>, recent: seq<Recent>, airs: seq<Entry>, start: nat, picks: seq<nat>, aired: seq<Entry>, k: nat,
    b: BreakState)
    requires k < |picks| && |aired| == |picks| + 1 && StandsAt(shorts, recent, airs, start, picks, aired, k, b)
    requires picks[k] < |shorts| && FirstFit(shorts, b, picks[k])
    requires aired[k + 1] == ShortAiring(shorts[picks[k]], b.cursor)
    ensures RulePick(shorts, recent, airs, start, picks, aired, k)
    ensures StandsAt(shorts, recent, airs, start, picks, aired, k + 1, Place(shorts, b, picks[k]))
  {
    hide Knows, InTurn, Eligible;
    FirstIsInTurn(shorts, recent, airs + aired[..k + 1], EndOf(aired[0]), b, TurnAfter(start, picks[..k]), picks[k]);
    AiringKnows(recent, airs + aired[..k + 1], b.lastAir, aired[k + 1]);
    assert airs + aired[..k + 1] + [aired[k + 1]] == airs + aired[..k + 2];
    var j, n := picks[k], |shorts|;
    if j + 1 < n {
      WrapsOnce(j + 1, n);
    } else {
      WrapsOnce(0, n);
    }
  }

  lemma {:induction false} BreakStands(
    shorts: seq<Item>, recent: seq<Recent>, airs: seq<Entry>, start: nat, picks: seq<nat>, aired: seq<Entry>,
    b0: BreakState, trail: seq<BreakState>, k: nat)
    requires GreedyBreak(shorts, b0, picks, trail) && k <= |picks|
    requires aired != [] && aired[1..] == PickedAirings(shorts, picks, trail)
    requires StandsAt(shorts, recent, airs, start, picks, aired, 0, b0)
    ensures StandsAt(shorts, recent, airs, start, picks, aired, k, trail[k])
    ensures forall m :: 0 <= m < k ==> RulePick(shorts, recent, airs, start, picks, aired, m)
  {
    if k > 0 {
      BreakStands(shorts, recent, airs, start, picks, aired, b0, trail, k - 1);
      hide StandsAt, RulePick, FirstFit, Place;
      assert aired[k] == aired[1..][k - 1];
      OnePick(shorts, recent, airs, start, picks, aired, k - 1, trail[k - 1]);
    }
  }

  lemma BreakByRule(
    shorts: seq<Item>, recent: seq<Recent>, airs: seq<Entry>, start: nat, picks: seq<nat>, aired: seq<Entry>,
    b0: BreakState, trail: seq<BreakState>)
    requires GreedyBreak(shorts, b0, picks, trail)
    requires aired != [] && aired[1..] == PickedAirings(shorts, picks, trail)
    requires StandsAt(shorts, recent, airs, start, picks, aired, 0, b0)
    ensures RuleBreak(shorts, recent, airs, start, picks, aired)
    ensures StandsAt(shorts, recent, airs, start, picks, aired, |picks|, trail[|picks|])
  {
    var n := |picks|;
    BreakStands(shorts, recent, airs, start, picks, aired, b0, trail, n);
    assert aired[..n + 1] == aired;
    forall j: nat | j < |shorts|
      ensures !MayFollow(shorts, recent, airs + aired, EndOf(aired[0]), EndOf(aired[n]), j)
    {
      assert !Fits(shorts, trail[n], j);
      hide TooSoon, Eligible;
    }
  }

  // ---- the film of a slot ---------------------------------------------------------------------

  ghost predicate Free(films: seq<Item>, recent: seq<Recent>, airs: seq<Entry>, at: int, f: nat) {
    f < |films| && !TooSoon(recent, airs, films[f].id, at)
  }

  /** Less than seven days old, and the first of its series in the library. */
  ghost predicate IsNewest(films: seq<Item>, now: int, f: nat) {
    && f < |films| && now - films[f].publishedAt < 604_800_000
    && forall g :: 0 <= g < f ==> films[g].series != films[f].series
  }

  /** Prime time prefers a newest episode and any other time another film; then comes the order of the library. */
  ghost predicate PreferredFilm(films: seq<Item>, now: int, prime: bool, f: nat, g: nat) {
    if IsNewest(films, now, f) == prime && IsNewest(films, now, g) != prime then true
    else if IsNewest(films, now, f) != prime && IsNewest(films, now, g) == prime then false
    else f < g
  }

  ghost predicate RuleFilm(
    films: seq<Item>, now: int, recent: seq<Recent>, airs: seq<Entry>, slot: Slot, choice: Option<nat>)
  {
    && (choice.Some? ==> Free(films, recent, airs, slot.at, choice.value))
    && forall g: nat :: Free(films, recent, airs, slot.at, g) ==>
         choice.Some? && (g == choice.value || PreferredFilm(films, now, slot.prime, choice.value, g))
  }

  /** The newest episodes as PlanDay lists them. */
  ghost predicate Lists(d: Desk) {
    forall f: nat :: f in d.newest <==> f < |d.films| && IsNew(d.films[f], d.now) && FirstOfSeries(d.films, f)
  }

  lemma FilmByRule(
    d: Desk, recent: seq<Recent>, airs: seq<Entry>, slot: Slot, lastAir: LastAir, choice: Option<nat>)
    requires Lists(d) && Knows(recent, airs, lastAir)
    requires RightFilm(d.films, d.newest, slot.prime, lastAir, slot.at, choice)
    ensures RuleFilm(d.films, d.now, recent, airs, slot, choice)
  {
    forall f: nat
      ensures f in d.newest <==> IsNewest(d.films, d.now, f)
    {
    }
    forall f: nat | f < |d.films|
      ensures Eligible(lastAir, d.films[f].id, slot.at) <==> Free(d.films, recent, airs, slot.at, f)
    {
    }
    hide Lists, IsNewest, Knows, Eligible, TooSoon;
  }

  // ---- a slot, and the day --------------------------------------------------------------------

  /** One slot, with `airs` aired before it and the turn of the Shorts at `start`. */
  ghost predicate RuleSlot(
    d: Desk, recent: seq<Recent>, airs: seq<Entry>, start: nat, b: Block, aired: seq<Entry>, promos: seq<Entry>,
    empty: seq<EmptySlot>)
  {
    var at := b.slot.at;
    if StillOn(airs, at) then aired == [] && promos == [] && empty == [EmptySlot(at, StillOnAir)] && b.outcome == Busy
    else
      match b.outcome
      case Busy => false
      case NoFilm =>
        && aired == [] && promos == [] && empty == [EmptySlot(at, NoFilmOutsideGap)]
        && RuleFilm(d.films, d.now, recent, airs, b.slot, None)
      case Aired(f, picks, _) =>
        && f < |d.films| && RuleFilm(d.films, d.now, recent, airs, b.slot, Some(f))
        && aired != [] && RuleBreak(d.shorts, recent, airs, start, picks, aired) && empty == []
        && (var film := d.films[f];
            && aired[0] == Airing(at, Film, film.id, film.file, film.durMs, b.slot.prime)
            && promos == if d.now - film.publishedAt < 604_800_000 then [Promo(at - 1_800_000, film.id)] else [])
  }

  /** All that aired in the slots. */
  ghost function AiredIn(d: Desk, day: seq<Block>): seq<Entry> {
    if day == [] then [] else AiredIn(d, day[..|day| - 1]) + AiringsOf(d, day[|day| - 1])
  }

  /** Whose turn it is after the slots: the Short after the last one aired, or the first. */
  ghost function TurnOf(day: seq<Block>): nat {
    if day == [] then 0
    else
      var b := day[|day| - 1];
      if b.outcome.Aired? then TurnAfter(TurnOf(day[..|day| - 1]), b.outcome.picks) else TurnOf(day[..|day| - 1])
  }

  ghost predicate RuleAt(d: Desk, recent: seq<Recent>, day: seq<Block>, k: nat)
    requires k < |day|
  {
    RuleSlot(d, recent, AiredIn(d, day[..k]), TurnOf(day[..k]), day[k],
             AiringsOf(d, day[k]), PromosOf(d, day[k]), EmptyOf([day[k]]))
  }

  /** The planner's state says the same as what has aired. */
  ghost predicate Agrees(d: Desk, recent: seq<Recent>, airs: seq<Entry>, start: nat, st: DayState) {
    && Knows(recent, airs, st.lastAir)
    && (forall t: int :: OnAir(st, t) <==> StillOn(airs, t))
    && start <= |d.shorts| && st.rot == Wrapped(|d.shorts|, start)
  }

  /** A break runs on without a hole, so what aired last ends last. */
  lemma {:induction false} EndsGrow(aired: seq<Entry>, m: nat, n: nat)
    requires m <= n < |aired| && forall i :: 0 <= i < |aired| ==> aired[i].Airing? && aired[i].durMs > 0
    requires forall i :: 0 <= i < n ==> aired[i + 1].at == EndOf(aired[i])
    ensures EndOf(aired[m]) <= EndOf(aired[n])
  {
    if m < n {
      EndsGrow(aired, m, n - 1);
      assert aired[n - 1 + 1].at == EndOf(aired[n - 1]);
    }
  }

  lemma StillOnBreak(airs: seq<Entry>, aired: seq<Entry>, t: int)
    requires aired != [] && forall i :: 0 <= i < |aired| ==> aired[i].Airing? && aired[i].durMs > 0
    requires forall i :: 0 <= i < |aired| - 1 ==> aired[i + 1].at == EndOf(aired[i])
    requires !StillOn(airs, aired[0].at)
    ensures StillOn(airs + aired, t) <==> t < EndOf(aired[|aired| - 1])
  {
    var n := |aired| - 1;
    if StillOn(airs + aired, t) {
      var a :| a in airs + aired && a.Airing? && t < a.at + a.durMs;
      EndsGrow(aired, 0, n);
      if a in aired {
        var i :| 0 <= i < |aired| && aired[i] == a;
        EndsGrow(aired, i, n);
      } else {
        assert a in airs;
      }
    }
    assert aired[n] in airs + aired;
  }

  lemma AiredByRule(d: Desk, recent: seq<Recent>, airs: seq<Entry>, start: nat, b: Block, next: DayState)
    requires forall s :: s in d.shorts || s in d.films ==> s.durMs > 0
    requires RightBlock(d, b, next) && b.outcome.Aired? && Agrees(d, recent, airs, start, b.before)
    ensures AiringsOf(d, b) != [] && RuleBreak(d.shorts, recent, airs, start, b.outcome.picks, AiringsOf(d, b))
    ensures Agrees(d, recent, airs + AiringsOf(d, b), TurnAfter(start, b.outcome.picks), next)
  {
    var f, picks, trail := b.outcome.film, b.outcome.picks, b.outcome.trail;
    var film, aired, b0 := d.films[f], AiringsOf(d, b), BreakStart(b.before, d.films[f], b.slot.at);
    ChoiceMayAir(d.films, d.newest, b.slot.prime, b.before.lastAir, b.slot.at, Some(f));
    hide RightFilm, Eligible, Knows, TooSoon, RulePick, FirstFit, MayFollow;
    BreakShape(d.shorts, b0, picks, trail);
    assert aired[..1] == [aired[0]] && picks[..0] == [] && film in d.films;
    AiringKnows(recent, airs, b.before.lastAir, aired[0]);
    BreakByRule(d.shorts, recent, airs, start, picks, aired, b0, trail);
    assert aired[..|picks| + 1] == aired && picks[..|picks|] == picks;
    BreakEnds(d, recent, airs, start, picks, aired);
    forall t: int
      ensures OnAir(next, t) <==> StillOn(airs + aired, t)
    {
      StillOnBreak(airs, aired, t);
    }
  }

  lemma BreakEnds(d: Desk, recent: seq<Recent>, airs: seq<Entry>, start: nat, picks: seq<nat>, aired: seq<Entry>)
    requires forall s :: s in d.shorts ==> s.durMs > 0
    requires RuleBreak(d.shorts, recent, airs, start, picks, aired) && aired[0].Airing? && aired[0].durMs > 0
    ensures forall i :: 0 <= i < |aired| ==> aired[i].Airing? && aired[i].durMs > 0
    ensures forall i :: 0 <= i < |aired| - 1 ==> aired[i + 1].at == EndOf(aired[i])
  {
    hide MayFollow;
    forall i | 0 < i < |aired|
      ensures aired[i].Airing? && aired[i].durMs > 0 && aired[i].at == EndOf(aired[i - 1])
    {
      assert RulePick(d.shorts, recent, airs, start, picks, aired, i - 1);
      assert d.shorts[picks[i - 1]] in d.shorts;
    }
  }

  lemma SlotByRule(d: Desk, recent: seq<Recent>, airs: seq<Entry>, start: nat, b: Block, next: DayState)
    requires forall s :: s in d.shorts || s in d.films ==> s.durMs > 0
    requires Lists(d) && RightBlock(d, b, next) && Agrees(d, recent, airs, start, b.before)
    ensures RuleSlot(d, recent, airs, start, b, AiringsOf(d, b), PromosOf(d, b), EmptyOf([b]))
    ensures Agrees(d, recent, airs + AiringsOf(d, b),
                   if b.outcome.Aired? then TurnAfter(start, b.outcome.picks) else start, next)
  {
    hide RightFilm, Knows, RuleFilm, RuleBreak, GreedyBreak, StillOn, Lists;
    assert [b][..0] == [] && EmptyOf([]) == [] && airs + [] == airs;
    match b.outcome
    case Busy =>
    case NoFilm =>
      FilmByRule(d, recent, airs, b.slot, b.before.lastAir, None);
    case Aired(f, picks, trail) =>
      FilmByRule(d, recent, airs, b.slot, b.before.lastAir, Some(f));
      AiredByRule(d, recent, airs, start, b, next);
      hide Agrees, TurnAfter;
  }

  lemma DayStarts(d: Desk, recent: seq<Recent>)
    ensures Agrees(d, recent, [], 0, DayState(Seed(recent), None, 0))
  {
    SeedKnows(recent);
  }

  lemma NextBlock(day: seq<Block>, k: nat)
    requires k < |day|
    ensures day[..k + 1] != [] && day[..k + 1][..|day[..k + 1]| - 1] == day[..k] && day[..k + 1][k] == day[k]
  {
  }

  /** Every slot of a planned day is decided by the rule. */
  lemma {:induction false} DayByRule(
    d: Desk, recent: seq<Recent>, day: seq<Block>, states: seq<DayState>, k: nat)
    requires forall s :: s in d.shorts || s in d.films ==> s.durMs > 0
    requires Lists(d) && RightDay(d, Seed(recent), day, states) && k <= |day|
    ensures Agrees(d, recent, AiredIn(d, day[..k]), TurnOf(day[..k]), states[k])
    ensures forall m :: 0 <= m < k ==> RuleAt(d, recent, day, m)
  {
    hide Lists, Agrees, RightBlock, RuleSlot, AiringsOf, PromosOf, EmptyOf;
    if k == 0 {
      DayStarts(d, recent);
    } else {
      DayByRule(d, recent, day, states, k - 1);
      NextBlock(day, k - 1);
      SlotByRule(d, recent, AiredIn(d, day[..k - 1]), TurnOf(day[..k - 1]), day[k - 1], states[k]);
    }
  }

  /** What aired in the slots is what airs in the plan. */
  lemma {:induction false} AiredIsPlanned(d: Desk, day: seq<Block>)
    ensures AiredIn(d, day) == Airings(EntriesOf(d, day))
  {
    hide AiringsOf, PromosOf, Airings;
    if day == [] {
      assert Airings([]) == [] by { AllAirings([]); }
    } else {
      var n := |day| - 1;
      AiredIsPlanned(d, day[..n]);
      SlotAirings(d, day[n], EntriesOf(d, day[..n]));
      assert EntriesOf(d, day) == EntriesOf(d, day[..n]) + (PromosOf(d, day[n]) + AiringsOf(d, day[n]));
    }
  }

  /** The slots are taken in time order and the plan is in time order; what has the same time keeps its order. */
  lemma InTimeOrder(slots: seq<Slot>, entries: seq<Entry>, t: int)
    ensures var s := SortBy(SlotLe, slots);
            && multiset(s) == multiset(slots) && (forall i, j :: 0 <= i < j < |s| ==> s[i].at <= s[j].at)
            && Filter((x: Slot) => x.at == t, s) == Filter((x: Slot) => x.at == t, slots)
    ensures var p := SortBy(AtLe, entries);
            && multiset(p) == multiset(entries) && (forall i, j :: 0 <= i < j < |p| ==> p[i].at <= p[j].at)
            && Filter((x: Entry) => x.at == t, p) == Filter((x: Entry) => x.at == t, entries)
  {
    SortBySorted(SlotLe, slots);
    SortKeepsTies(SlotLe, (x: Slot) => x.at == t, slots);
    SortBySorted(AtLe, entries);
    SortKeepsTies(AtLe, (x: Entry) => x.at == t, entries);
  }

  /** A Short may air if it is a permitted ScoopFeeds 60, or names a film of the library. */
  predicate MayBePlanned(library: seq<Item>, allowSf60: bool, s: Item) {
    && s.kind == Short
    && if s.series == "scoopfeeds-60" then allowSf60
       else s.parentFilm != "" && exists i :: 0 <= i < |library| && library[i].kind == Film
                                              && library[i].id == s.parentFilm
  }

  lemma {:induction false} ChosenInOrder(library: seq<Item>, all: seq<Item>, allowSf60: bool)
    ensures FilmsOf(library) == Filter((x: Item) => x.kind == Film, library)
    ensures PlannableShorts(library, FilmIds(all), allowSf60) ==
              Filter((x: Item) => MayBePlanned(all, allowSf60, x), library)
  {
    if library != [] {
      ChosenInOrder(library[1..], all, allowSf60);
      NotBarred(all, library[0], allowSf60);
    }
  }

  lemma NotBarred(all: seq<Item>, s: Item, allowSf60: bool)
    ensures s.kind.Short? && !Barred(s, FilmIds(all), {}, allowSf60) <==> MayBePlanned(all, allowSf60, s)
  {
    assert s.parentFilm in FilmIds(all) <==>
           exists i :: 0 <= i < |all| && all[i].kind == Film && all[i].id == s.parentFilm;
  }

  // ---- and the rule leaves nothing open --------------------------------------------------------

  lemma OneInTurn(
    shorts: seq<Item>, recent: seq<Recent>, airs: seq<Entry>, filmEnd: int, t: int, start: nat, i: nat, j: nat)
    requires InTurn(shorts, recent, airs, filmEnd, t, start, i)
    ensures InTurn(shorts, recent, airs, filmEnd, t, start, j) ==> i == j
    ensures exists k: nat :: k < |shorts| && MayFollow(shorts, recent, airs, filmEnd, t, k)
  {
    hide MayFollow;
  }

  lemma {:induction false} OneBreak(
    shorts: seq<Item>, recent: seq<Recent>, airs: seq<Entry>, start: nat, p: seq<nat>, a: seq<Entry>,
    q: seq<nat>, b: seq<Entry>, k: nat)
    requires RuleBreak(shorts, recent, airs, start, p, a) && RuleBreak(shorts, recent, airs, start, q, b)
    requires a[0] == b[0] && k <= |p| && k <= |q|
    ensures p[..k] == q[..k] && a[..k + 1] == b[..k + 1]
    ensures k == |p| ==> k == |q|
  {
    hide InTurn, MayFollow, TurnAfter;
    if k > 0 {
      OneBreak(shorts, recent, airs, start, p, a, q, b, k - 1);
      assert RulePick(shorts, recent, airs, start, p, a, k - 1) && RulePick(shorts, recent, airs, start, q, b, k - 1);
      assert a[..k][k - 1] == a[k - 1] && b[..k][k - 1] == b[k - 1];
      OneInTurn(shorts, recent, airs + a[..k], EndOf(a[0]), EndOf(a[k - 1]), TurnAfter(start, p[..k - 1]),
                p[k - 1], q[k - 1]);
    }
    if k == |p| && k < |q| {
      assert a == a[..k + 1];
      assert a == b[..k + 1];
      assert a[k] == b[k] && RulePick(shorts, recent, airs, start, q, b, k);
      OneInTurn(shorts, recent, airs + a, EndOf(a[0]), EndOf(a[k]), TurnAfter(start, q[..k]), q[k], 0);
    }
  }

  lemma SameBreak(
    shorts: seq<Item>, recent: seq<Recent>, airs: seq<Entry>, start: nat, p: seq<nat>, a: seq<Entry>,
    q: seq<nat>, b: seq<Entry>)
    requires RuleBreak(shorts, recent, airs, start, p, a) && RuleBreak(shorts, recent, airs, start, q, b)
    requires a[0] == b[0]
    ensures p == q && a == b
  {
    hide RulePick, MayFollow;
    var k := if |p| <= |q| then |p| else |q|;
    OneBreak(shorts, recent, airs, start, p, a, q, b, k);
    OneBreak(shorts, recent, airs, start, q, b, p, a, k);
    assert p[..k] == p && q[..k] == q && a[..k + 1] == a && b[..k + 1] == b;
  }

  lemma OneSlot(
    d: Desk, recent: seq<Recent>, airs: seq<Entry>, start: nat, b: Block, aired: seq<Entry>, promos: seq<Entry>,
    empty: seq<EmptySlot>, b': Block, aired': seq<Entry>, promos': seq<Entry>, empty': seq<EmptySlot>)
    requires RuleSlot(d, recent, airs, start, b, aired, promos, empty)
    requires RuleSlot(d, recent, airs, start, b', aired', promos', empty') && b.slot == b'.slot
    ensures aired == aired' && promos == promos' && empty == empty'
    ensures b.outcome.Aired? == b'.outcome.Aired?
    ensures b.outcome.Aired? ==> b.outcome.picks == b'.outcome.picks
  {
    hide RuleBreak, StillOn, TooSoon, IsNewest;
    if b.outcome.Aired? && b'.outcome.Aired? {
      SameBreak(d.shorts, recent, airs, start, b.outcome.picks, aired, b'.outcome.picks, aired');
    }
  }

  /** So library, history, slots and clock have one plan: any two days decided by the rule are the same. */
  lemma {:induction false} OneDay(d: Desk, recent: seq<Recent>, day: seq<Block>, day': seq<Block>, k: nat)
    requires |day| == |day'| && k <= |day| && forall m :: 0 <= m < |day| ==> day[m].slot == day'[m].slot
    requires forall m :: 0 <= m < |day| ==> RuleAt(d, recent, day, m)
    requires forall m :: 0 <= m < |day'| ==> RuleAt(d, recent, day', m)
    ensures AiredIn(d, day[..k]) == AiredIn(d, day'[..k]) && TurnOf(day[..k]) == TurnOf(day'[..k])
    ensures EntriesOf(d, day[..k]) == EntriesOf(d, day'[..k]) && EmptyOf(day[..k]) == EmptyOf(day'[..k])
  {
    hide RuleSlot, AiringsOf, PromosOf;
    if k > 0 {
      OneDay(d, recent, day, day', k - 1);
      NextBlock(day, k - 1);
      NextBlock(day', k - 1);
      var b, b' := day[k - 1], day'[k - 1];
      assert RuleAt(d, recent, day, k - 1) && RuleAt(d, recent, day', k - 1);
      OneSlot(d, recent, AiredIn(d, day[..k - 1]), TurnOf(day[..k - 1]),
              b, AiringsOf(d, b), PromosOf(d, b), EmptyOf([b]), b', AiringsOf(d, b'), PromosOf(d, b'), EmptyOf([b']));
      EmptyOfNext(day[..k - 1], b);
      EmptyOfNext(day'[..k - 1], b');
      assert day[..k] == day[..k - 1] + [b] && day'[..k] == day'[..k - 1] + [b'];
      hide EmptyOf;
    }
  }

  lemma EmptyOfNext(day: seq<Block>, b: Block)
    ensures EmptyOf(day + [b]) == EmptyOf(day) + EmptyOf([b])
  {
    assert (day + [b])[..|day|] == day && [b][..0] == [];
    assert EmptyOf([b][..0]) == [];
  }
}
