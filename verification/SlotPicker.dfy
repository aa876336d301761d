/**
 * Choosing what airs from the ranking: one headline, "also this hour" and the music rotator, under caps shared by
 * all three (backend/src/radio/radioRank.js, pickSlots). A story is named by its rank.
 */
module SlotPicker {
  import opened Common
  import opened News

  const MAX_PER_PUBLISHER := 2
  const MAX_SPORT := 1
  const MAX_PER_TOPIC := 1
  const MUSIC_CATEGORIES: seq<Category> := [World, Business, Tech, Politics, Health, Science]

  function Publisher(s: Story): string {
    if s.lead.source == "" then "?" else s.lead.source
  }

  /** Reported by two outlets or more. */
  predicate Multi(s: Story) { |s.outlets| >= 2 }

  predicate MusicIneligible(s: Story) {
    |s.outlets| < 2 && exists i :: 0 <= i < |ArticlesOf(s)| && ArticlesOf(s)[i].notHardNews
  }

  /** The two pools the music rotator draws from, corroborated stories first. */
  predicate InPool(s: Story, corroborated: bool) {
    if corroborated then Multi(s) else !Multi(s) && !MusicIneligible(s)
  }

  // ---- the caps -------------------------------------------------------------------------------

  ghost function OfPublisher(ranked: seq<Story>, t: set<nat>, pub: string): set<nat> {
    set i | i in t && i < |ranked| && Publisher(ranked[i]) == pub
  }

  ghost function OfTopic(ranked: seq<Story>, t: set<nat>, topic: string): set<nat> {
    set i | i in t && i < |ranked| && ranked[i].lead.topic == Some(topic)
  }

  ghost function Sports(ranked: seq<Story>, t: set<nat>): set<nat> {
    set i | i in t && i < |ranked| && ranked[i].sport
  }

  /** Story `i` may join the stories `t` already on air. */
  ghost predicate Fits(ranked: seq<Story>, entity: bool, t: set<nat>, i: nat)
    requires i < |ranked|
  {
    var s := ranked[i];
    && i !in t
    && (forall j :: j in t && j < |ranked| ==> !SameStory(s, ranked[j], entity))
    && (s.lead.topic.Some? ==> |OfTopic(ranked, t, s.lead.topic.value)| < MAX_PER_TOPIC)
    && |OfPublisher(ranked, t, Publisher(s))| < MAX_PER_PUBLISHER
    && (s.sport ==> |Sports(ranked, t)| < MAX_SPORT)
  }

  /** The caps hold of the stories on air, and no two of them are one story. */
  ghost predicate WithinCaps(ranked: seq<Story>, entity: bool, t: set<nat>) {
    && (forall i :: i in t ==> i < |ranked|)
    && (forall p :: |OfPublisher(ranked, t, p)| <= MAX_PER_PUBLISHER)
    && (forall p :: |OfTopic(ranked, t, p)| <= MAX_PER_TOPIC)
    && |Sports(ranked, t)| <= MAX_SPORT
    && (forall i, j :: i in t && j in t && i != j ==> !SameStory(ranked[i], ranked[j], entity))
  }

  /** What does not fit now will not fit later: picks only ever close doors. */
  lemma FitsOnlyShrinks(ranked: seq<Story>, entity: bool, t: set<nat>, t': set<nat>, i: nat)
    requires i < |ranked| && t <= t' && Fits(ranked, entity, t', i)
    ensures Fits(ranked, entity, t, i)
  {
    var s := ranked[i];
    SubsetSize(OfPublisher(ranked, t, Publisher(s)), OfPublisher(ranked, t', Publisher(s)));
    SubsetSize(Sports(ranked, t), Sports(ranked, t'));
    if s.lead.topic.Some? {
      SubsetSize(OfTopic(ranked, t, s.lead.topic.value), OfTopic(ranked, t', s.lead.topic.value));
    }
  }

  lemma TakeKeepsCaps(ranked: seq<Story>, entity: bool, t: set<nat>, i: nat)
    requires i < |ranked| && WithinCaps(ranked, entity, t) && Fits(ranked, entity, t, i)
    ensures WithinCaps(ranked, entity, t + {i})
  {
    var t' := t + {i};
    forall p
      ensures |OfPublisher(ranked, t', p)| <= MAX_PER_PUBLISHER
    {
      TakePublisher(ranked, t, i, p);
    }
    forall p
      ensures |OfTopic(ranked, t', p)| <= MAX_PER_TOPIC
    {
      TakeTopic(ranked, t, i, p);
    }
    TakeSport(ranked, t, i);
    forall j | j in t
      ensures !SameStory(ranked[j], ranked[i], entity)
    {
      SameStorySymmetric(ranked[j], ranked[i], entity);
    }
  }

  lemma TakePublisher(ranked: seq<Story>, t: set<nat>, i: nat, p: string)
    requires i < |ranked| && i !in t
    ensures |OfPublisher(ranked, t + {i}, p)|
         == |OfPublisher(ranked, t, p)| + (if Publisher(ranked[i]) == p then 1 else 0)
  {
    assert OfPublisher(ranked, t + {i}, p)
        == OfPublisher(ranked, t, p) + (if Publisher(ranked[i]) == p then {i} else {});
  }

  lemma TakeTopic(ranked: seq<Story>, t: set<nat>, i: nat, p: string)
    requires i < |ranked| && i !in t
    ensures |OfTopic(ranked, t + {i}, p)|
         == |OfTopic(ranked, t, p)| + (if ranked[i].lead.topic == Some(p) then 1 else 0)
  {
    assert OfTopic(ranked, t + {i}, p)
        == OfTopic(ranked, t, p) + (if ranked[i].lead.topic == Some(p) then {i} else {});
  }

  lemma TakeSport(ranked: seq<Story>, t: set<nat>, i: nat)
    requires i < |ranked| && i !in t
    ensures |Sports(ranked, t + {i})| == |Sports(ranked, t)| + (if ranked[i].sport then 1 else 0)
  {
    assert Sports(ranked, t + {i}) == Sports(ranked, t) + (if ranked[i].sport then {i} else {});
  }

  // ---- the board: what is taken, with the counters the picker keeps ---------------------------

  function Count(m: map<string, nat>, k: string): nat {
    if k in m then m[k] else 0
  }

  function Bump(m: map<string, nat>, k: string): map<string, nat> {
    m[k := Count(m, k) + 1]
  }

  /** The picker's counters agree with the stories on air. */
  ghost predicate CountersOk(
    ranked: seq<Story>, t: set<nat>, perPublisher: map<string, nat>, perTopic: map<string, nat>, sportUsed: nat)
  {
    && (forall p :: Count(perPublisher, p) == |OfPublisher(ranked, t, p)|)
    && (forall p :: Count(perTopic, p) == |OfTopic(ranked, t, p)|)
    && sportUsed == |Sports(ranked, t)|
  }

  lemma TakeKeepsCounters(
    ranked: seq<Story>, t: set<nat>, perPublisher: map<string, nat>, perTopic: map<string, nat>, sportUsed: nat, i: nat)
    requires i < |ranked| && i !in t && CountersOk(ranked, t, perPublisher, perTopic, sportUsed)
    ensures var s := ranked[i];
            CountersOk(ranked, t + {i}, Bump(perPublisher, Publisher(s)),
                       if s.lead.topic.Some? then Bump(perTopic, s.lead.topic.value) else perTopic,
                       if s.sport then sportUsed + 1 else sportUsed)
  {
    hide OfPublisher, OfTopic, Sports;
    TakeSport(ranked, t, i);
    forall p
      ensures |OfPublisher(ranked, t + {i}, p)| == Count(Bump(perPublisher, Publisher(ranked[i])), p)
    {
      TakePublisher(ranked, t, i, p);
    }
    forall p
      ensures |OfTopic(ranked, t + {i}, p)|
           == Count(perTopic, p) + (if ranked[i].lead.topic == Some(p) then 1 else 0)
    {
      TakeTopic(ranked, t, i, p);
    }
  }

  class Board {
    const ranked: seq<Story>
    const entity: bool
    var taken: set<nat>
    var perPublisher: map<string, nat>
    var perTopic: map<string, nat>
    var sportUsed: nat

    ghost predicate Valid()
      reads this
    {
      WithinCaps(ranked, entity, taken) && CountersOk(ranked, taken, perPublisher, perTopic, sportUsed)
    }

    constructor (ranked: seq<Story>, entity: bool)
      ensures this.ranked == ranked && this.entity == entity
      ensures Valid() && taken == {}
    {
      this.ranked, this.entity := ranked, entity;
      taken, perPublisher, perTopic, sportUsed := {}, map[], map[], 0;
      new;
      assert forall p :: OfPublisher(ranked, {}, p) == {};
      assert forall p :: OfTopic(ranked, {}, p) == {};
      assert Sports(ranked, {}) == {};
    }

    /** The counters answer the question the caps ask. */
    predicate FitsNow(i: nat)
      requires i < |ranked| && Valid()
      reads this
      ensures FitsNow(i) <==> Fits(ranked, entity, taken, i)
    {
      var s := ranked[i];
      && i !in taken
      && (forall j | j in taken :: !SameStory(s, ranked[j], entity))
      && !(s.lead.topic.Some? && Count(perTopic, s.lead.topic.value) >= MAX_PER_TOPIC)
      && !(Count(perPublisher, Publisher(s)) >= MAX_PER_PUBLISHER)
      && !(s.sport && sportUsed >= MAX_SPORT)
    }

    method Take(i: nat)
      requires Valid() && i < |ranked| && Fits(ranked, entity, taken, i)
      modifies this
      ensures Valid() && taken == old(taken) + {i}
    {
      hide WithinCaps, CountersOk;
      assert i !in taken;
      hide Fits;
      var s := ranked[i];
      TakeKeepsCaps(ranked, entity, taken, i);
      TakeKeepsCounters(ranked, taken, perPublisher, perTopic, sportUsed, i);
      taken := taken + {i};
      perPublisher := Bump(perPublisher, Publisher(s));
      if s.sport {
        sportUsed := sportUsed + 1;
      }
      if s.lead.topic.Some? {
        perTopic := Bump(perTopic, s.lead.topic.value);
      }
    }
  }

  // ---- drawing from a pool --------------------------------------------------------------------

  datatype Pool = MultiOnly | Anyone | MusicMulti | MusicSingle

  predicate Wants(s: Story, pool: Pool) {
    match pool
    case MultiOnly => Multi(s)
    case Anyone => true
    case MusicMulti => !s.sensitive && InPool(s, true)
    case MusicSingle => !s.sensitive && InPool(s, false)
  }

  /** No story of the pool ranked above `n` fits beside `t`. */
  ghost predicate NoneBelow(ranked: seq<Story>, entity: bool, t: set<nat>, n: nat, pool: Pool) {
    forall j: nat :: j < n && j < |ranked| && Wants(ranked[j], pool) ==> !Fits(ranked, entity, t, j)
  }

  ghost predicate Exhausted(ranked: seq<Story>, entity: bool, t: set<nat>, pool: Pool) {
    NoneBelow(ranked, entity, t, |ranked|, pool)
  }

  /** Nor one of category `c`. */
  ghost predicate NoneAbove(ranked: seq<Story>, entity: bool, t: set<nat>, n: nat, c: Category, pool: Pool) {
    forall j: nat :: j < n && j < |ranked| && Wants(ranked[j], pool) && ranked[j].lead.category == c ==>
      !Fits(ranked, entity, t, j)
  }

  lemma NoneBelowStays(ranked: seq<Story>, entity: bool, t: set<nat>, t': set<nat>, n: nat, pool: Pool)
    requires NoneBelow(ranked, entity, t, n, pool) && t <= t'
    ensures NoneBelow(ranked, entity, t', n, pool)
  {
    hide Fits;
    forall j: nat | j < n && j < |ranked| && Wants(ranked[j], pool)
      ensures !Fits(ranked, entity, t', j)
    {
      if Fits(ranked, entity, t', j) {
        FitsOnlyShrinks(ranked, entity, t, t', j);
      }
    }
  }

  lemma NoneAboveStays(
    ranked: seq<Story>, entity: bool, t: set<nat>, t': set<nat>, n: nat, c: Category, pool: Pool)
    requires NoneAbove(ranked, entity, t, n, c, pool) && t <= t'
    ensures NoneAbove(ranked, entity, t', n, c, pool)
  {
    hide Fits;
    forall j: nat | j < n && j < |ranked| && Wants(ranked[j], pool) && ranked[j].lead.category == c
      ensures !Fits(ranked, entity, t', j)
    {
      if Fits(ranked, entity, t', j) {
        FitsOnlyShrinks(ranked, entity, t, t', j);
      }
    }
  }

  function AsSet(s: seq<nat>): set<nat> {
    set x | x in s
  }

  // ---- one pick after the other ----------------------------------------------------------------

  /** On air before the k-th pick of `list`, when `t0` was on air before the list was begun. */
  function Before(t0: set<nat>, list: seq<nat>, k: nat): set<nat>
    requires k <= |list|
  {
    t0 + AsSet(list[..k])
  }

  /** `i` is the one to take next: the best-ranked story the pool wants that fits beside `t`. */
  ghost predicate IsNext(ranked: seq<Story>, entity: bool, t: set<nat>, i: nat, pool: Pool) {
    i < |ranked| && Wants(ranked[i], pool) && Fits(ranked, entity, t, i) && NoneBelow(ranked, entity, t, i, pool)
  }

  /** Picks `lo` to `hi` of the list were each the next of the pool, beside all the picks before it. */
  ghost predicate DrawnFrom(
    ranked: seq<Story>, entity: bool, t0: set<nat>, list: seq<nat>, lo: nat, hi: nat, pool: Pool)
  {
    && lo <= hi <= |list|
    && forall k :: lo <= k < hi ==> IsNext(ranked, entity, Before(t0, list, k), list[k], pool)
  }

  lemma BeforeStays(t0: set<nat>, list: seq<nat>, list': seq<nat>, k: nat)
    requires list <= list' && k <= |list|
    ensures Before(t0, list', k) == Before(t0, list, k)
  {
    assert list'[..k] == list[..k];
  }

  lemma DrawnStays(
    ranked: seq<Story>, entity: bool, t0: set<nat>, list: seq<nat>, list': seq<nat>, lo: nat, hi: nat, pool: Pool)
    requires DrawnFrom(ranked, entity, t0, list, lo, hi, pool) && list <= list'
    ensures DrawnFrom(ranked, entity, t0, list', lo, hi, pool)
  {
    hide IsNext, Before;
    forall k | lo <= k < hi
      ensures IsNext(ranked, entity, Before(t0, list', k), list'[k], pool)
    {
      BeforeStays(t0, list, list', k);
    }
  }

  lemma DrawOne(
    ranked: seq<Story>, entity: bool, t0: set<nat>, list: seq<nat>, lo: nat, pool: Pool, i: nat)
    requires DrawnFrom(ranked, entity, t0, list, lo, |list|, pool)
    requires IsNext(ranked, entity, t0 + AsSet(list), i, pool)
    ensures DrawnFrom(ranked, entity, t0, list + [i], lo, |list| + 1, pool)
    ensures t0 + AsSet(list + [i]) == t0 + AsSet(list) + {i}
  {
    DrawnStays(ranked, entity, t0, list, list + [i], lo, |list|, pool);
    assert (list + [i])[..|list|] == list;
    hide IsNext;
  }

  /** One pass down the ranking: take what the pool wants and what fits, until `cap`. */
  method Draw(b: Board, ghost t0: set<nat>, from: seq<nat>, cap: nat, pool: Pool) returns (list: seq<nat>)
    requires b.Valid() && |from| <= cap && b.taken == t0 + AsSet(from)
    modifies b
    ensures b.Valid() && from <= list && |list| <= cap && b.taken == t0 + AsSet(list)
    ensures DrawnFrom(b.ranked, b.entity, t0, list, |from|, |list|, pool)
    ensures |list| < cap ==> Exhausted(b.ranked, b.entity, b.taken, pool)
  {
    list := from;
    var i := 0;
    NoneBelowStart(b.ranked, b.entity, b.taken, pool);
    hide Fits, NoneBelow, WithinCaps, CountersOk, Wants;
    while i < |b.ranked| && |list| < cap
      invariant b.Valid() && from <= list && |list| <= cap && i <= |b.ranked| && b.taken == t0 + AsSet(list)
      invariant DrawnFrom(b.ranked, b.entity, t0, list, |from|, |list|, pool)
      invariant NoneBelow(b.ranked, b.entity, b.taken, i, pool)
    {
      if Wants(b.ranked[i], pool) && b.FitsNow(i) {
        DrawOne(b.ranked, b.entity, t0, list, |from|, pool, i);
        ghost var t := b.taken;
        b.Take(i);
        NoneBelowTaken(b.ranked, b.entity, t, i, pool);
        list := list + [i];
      } else {
        NoneBelowNext(b.ranked, b.entity, b.taken, i, pool);
      }
      i := i + 1;
    }
  }

  lemma NoneBelowStart(ranked: seq<Story>, entity: bool, t: set<nat>, pool: Pool)
    ensures NoneBelow(ranked, entity, t, 0, pool)
  {
  }

  lemma NoneBelowTaken(ranked: seq<Story>, entity: bool, t: set<nat>, i: nat, pool: Pool)
    requires i < |ranked| && NoneBelow(ranked, entity, t, i, pool)
    ensures NoneBelow(ranked, entity, t + {i}, i + 1, pool)
  {
    NoneBelowStays(ranked, entity, t, t + {i}, i, pool);
    NoneBelowNext(ranked, entity, t + {i}, i, pool);
  }

  lemma FitsIsFree(ranked: seq<Story>, entity: bool, t: set<nat>, i: nat)
    requires i < |ranked| && Fits(ranked, entity, t, i)
    ensures i !in t
  {
  }

  lemma NoneBelowNext(ranked: seq<Story>, entity: bool, t: set<nat>, i: nat, pool: Pool)
    requires i < |ranked| && NoneBelow(ranked, entity, t, i, pool)
    requires !(Wants(ranked[i], pool) && Fits(ranked, entity, t, i))
    ensures NoneBelow(ranked, entity, t, i + 1, pool)
  {
  }

  // ---- one story per category first -----------------------------------------------------------

  /** `i` is the one to take next for its category: the best-ranked of it the pool wants that fits beside `t`. */
  ghost predicate IsNextOfCategory(ranked: seq<Story>, entity: bool, t: set<nat>, i: nat, pool: Pool) {
    && i < |ranked| && Wants(ranked[i], pool) && Fits(ranked, entity, t, i)
    && NoneAbove(ranked, entity, t, i, ranked[i].lead.category, pool)
  }

  /** The best-ranked story of category `c` the pool wants and that fits. */
  method BestOfCategory(b: Board, c: Category, pool: Pool) returns (r: Option<nat>)
    requires b.Valid()
    ensures r.None? ==> NoneAbove(b.ranked, b.entity, b.taken, |b.ranked|, c, pool)
    ensures r.Some? ==>
              && IsNextOfCategory(b.ranked, b.entity, b.taken, r.value, pool)
              && b.ranked[r.value].lead.category == c
  {
    NoneAboveStart(b.ranked, b.entity, b.taken, c, pool);
    hide Fits, WithinCaps, CountersOk, NoneAbove, Wants;
    for i := 0 to |b.ranked|
      invariant NoneAbove(b.ranked, b.entity, b.taken, i, c, pool)
    {
      if Wants(b.ranked[i], pool) && b.FitsNow(i) && b.ranked[i].lead.category == c {
        return Some(i);
      }
      NoneAboveNext(b.ranked, b.entity, b.taken, i, c, pool);
    }
    r := None;
  }

  lemma NoneAboveStart(ranked: seq<Story>, entity: bool, t: set<nat>, c: Category, pool: Pool)
    ensures NoneAbove(ranked, entity, t, 0, c, pool)
  {
  }

  lemma NoneAboveNext(ranked: seq<Story>, entity: bool, t: set<nat>, i: nat, c: Category, pool: Pool)
    requires i < |ranked| && NoneAbove(ranked, entity, t, i, c, pool)
    requires !(Wants(ranked[i], pool) && Fits(ranked, entity, t, i) && ranked[i].lead.category == c)
    ensures NoneAbove(ranked, entity, t, i + 1, c, pool)
  {
    hide Fits, Wants;
  }

  predicate Represented(ranked: seq<Story>, music: seq<nat>, c: Category) {
    exists k :: 0 <= k < |music| && music[k] < |ranked| && ranked[music[k]].lead.category == c
  }

  function CategoryNo(c: Category): nat {
    match c case World => 0 case Business => 1 case Tech => 2 case Politics => 3 case Health => 4 case Science => 5
  }

  /** No category before `c` that is not on the list has a story that fits beside `t`. */
  ghost predicate EarlierUsedUp(
    ranked: seq<Story>, entity: bool, t: set<nat>, list: seq<nat>, c: Category, pool: Pool)
  {
    forall d :: CategoryNo(d) < CategoryNo(c) && !Represented(ranked, list, d) ==>
      NoneAbove(ranked, entity, t, |ranked|, d, pool)
  }

  /**
   * The k-th pick was the next of its category, beside all the picks before it; none of these was of it, and the
   * categories before it had nothing more to give.
   */
  ghost predicate SpreadAt(ranked: seq<Story>, entity: bool, t0: set<nat>, list: seq<nat>, k: nat, pool: Pool)
    requires k < |list|
  {
    && IsNextOfCategory(ranked, entity, Before(t0, list, k), list[k], pool)
    && !Represented(ranked, list[..k], ranked[list[k]].lead.category)
    && EarlierUsedUp(ranked, entity, Before(t0, list, k), list[..k], ranked[list[k]].lead.category, pool)
  }

  /** Picks `lo` to `hi` are of different categories, in the order of the categories, none on the list before. */
  ghost predicate SpreadFrom(
    ranked: seq<Story>, entity: bool, t0: set<nat>, list: seq<nat>, lo: nat, hi: nat, pool: Pool)
  {
    && lo <= hi <= |list|
    && (forall k :: lo <= k < hi ==> list[k] < |ranked| && SpreadAt(ranked, entity, t0, list, k, pool))
    && InCategoryOrder(ranked, list, lo, hi)
  }

  /** The category of story `i` comes before that of story `j`. */
  predicate EarlierCategory(ranked: seq<Story>, i: nat, j: nat) {
    && i < |ranked| && j < |ranked|
    && CategoryNo(ranked[i].lead.category) < CategoryNo(ranked[j].lead.category)
  }

  ghost predicate InCategoryOrder(ranked: seq<Story>, list: seq<nat>, lo: nat, hi: nat) {
    hi <= |list| && forall k, l :: lo <= k < l < hi ==> EarlierCategory(ranked, list[k], list[l])
  }

  lemma OrderStays(ranked: seq<Story>, list: seq<nat>, list': seq<nat>, lo: nat, hi: nat)
    requires InCategoryOrder(ranked, list, lo, hi) && list <= list'
    ensures InCategoryOrder(ranked, list', lo, hi)
  {
    hide EarlierCategory;
    forall k, l | lo <= k < l < hi
      ensures EarlierCategory(ranked, list'[k], list'[l])
    {
      assert list'[k] == list[k] && list'[l] == list[l];
      assert EarlierCategory(ranked, list[k], list[l]);
    }
  }

  lemma OrderOne(ranked: seq<Story>, list: seq<nat>, lo: nat, i: nat)
    requires InCategoryOrder(ranked, list, lo, |list|)
    requires i < |ranked| && NumberedBelow(ranked, list, lo, CategoryNo(ranked[i].lead.category))
    ensures InCategoryOrder(ranked, list + [i], lo, |list| + 1)
  {
    hide CategoryNo;
    var list' := list + [i];
    forall k, l | lo <= k < l < |list'|
      ensures EarlierCategory(ranked, list'[k], list'[l])
    {
      assert list'[k] == list[k];
      assert l < |list| ==> list'[l] == list[l] && EarlierCategory(ranked, list[k], list[l]);
    }
  }

  lemma OneMoreOnAir(t0: set<nat>, list: seq<nat>, i: nat)
    ensures t0 + AsSet(list + [i]) == t0 + AsSet(list) + {i}
  {
  }

  /** A category is settled: on the list, or without a story that fits, or the list is full. */
  ghost predicate Settled(
    ranked: seq<Story>, entity: bool, t: set<nat>, list: seq<nat>, cap: nat, c: Category, pool: Pool)
  {
    |list| >= cap || Represented(ranked, list, c) || NoneAbove(ranked, entity, t, |ranked|, c, pool)
  }

  lemma SpreadAtStays(
    ranked: seq<Story>, entity: bool, t0: set<nat>, list: seq<nat>, list': seq<nat>, k: nat, pool: Pool)
    requires list <= list' && k < |list| && SpreadAt(ranked, entity, t0, list, k, pool)
    ensures SpreadAt(ranked, entity, t0, list', k, pool)
  {
    assert list'[..k] == list[..k];
    hide EarlierUsedUp, Represented, IsNextOfCategory;
  }

  lemma SpreadStays(
    ranked: seq<Story>, entity: bool, t0: set<nat>, list: seq<nat>, list': seq<nat>, lo: nat, hi: nat, pool: Pool)
    requires SpreadFrom(ranked, entity, t0, list, lo, hi, pool) && list <= list'
    ensures SpreadFrom(ranked, entity, t0, list', lo, hi, pool)
  {
    hide SpreadAt;
    OrderStays(ranked, list, list', lo, hi);
    forall k | lo <= k < hi
      ensures list'[k] < |ranked| && SpreadAt(ranked, entity, t0, list', k, pool)
    {
      SpreadAtStays(ranked, entity, t0, list, list', k, pool);
      assert list'[k] == list[k];
    }
  }

  /** The picks from `lo` on are of the first `n` categories. */
  ghost predicate NumberedBelow(ranked: seq<Story>, list: seq<nat>, lo: nat, n: nat) {
    forall l :: lo <= l < |list| ==> list[l] < |ranked| && CategoryNo(ranked[list[l]].lead.category) < n
  }

  lemma SpreadOne(ranked: seq<Story>, entity: bool, t0: set<nat>, list: seq<nat>, lo: nat, pool: Pool, i: nat)
    requires SpreadFrom(ranked, entity, t0, list, lo, |list|, pool)
    requires IsNextOfCategory(ranked, entity, t0 + AsSet(list), i, pool)
    requires !Represented(ranked, list, ranked[i].lead.category)
    requires EarlierUsedUp(ranked, entity, t0 + AsSet(list), list, ranked[i].lead.category, pool)
    requires NumberedBelow(ranked, list, lo, CategoryNo(ranked[i].lead.category))
    ensures SpreadFrom(ranked, entity, t0, list + [i], lo, |list| + 1, pool)
    ensures Represented(ranked, list + [i], ranked[i].lead.category)
  {
    var list' := list + [i];
    SpreadStays(ranked, entity, t0, list, list', lo, |list|, pool);
    SpreadAtEnd(ranked, entity, t0, list, pool, i);
    hide SpreadAt, IsNextOfCategory, CategoryNo, InCategoryOrder, NumberedBelow, EarlierUsedUp;
    OrderOne(ranked, list, lo, i);
  }

  lemma SpreadAtEnd(ranked: seq<Story>, entity: bool, t0: set<nat>, list: seq<nat>, pool: Pool, i: nat)
    requires IsNextOfCategory(ranked, entity, t0 + AsSet(list), i, pool)
    requires !Represented(ranked, list, ranked[i].lead.category)
    requires EarlierUsedUp(ranked, entity, t0 + AsSet(list), list, ranked[i].lead.category, pool)
    ensures i < |ranked| && SpreadAt(ranked, entity, t0, list + [i], |list|, pool)
    ensures Represented(ranked, list + [i], ranked[i].lead.category)
  {
    hide Fits, Wants, NoneAbove, EarlierUsedUp;
    assert (list + [i])[..|list|] == list && (list + [i])[|list|] == i;
  }

  lemma NumberedOne(ranked: seq<Story>, list: seq<nat>, lo: nat, i: nat)
    requires i < |ranked| && NumberedBelow(ranked, list, lo, CategoryNo(ranked[i].lead.category))
    ensures NumberedBelow(ranked, list + [i], lo, CategoryNo(ranked[i].lead.category) + 1)
  {
    hide CategoryNo;
  }

  lemma SettledStays(
    ranked: seq<Story>, entity: bool, t: set<nat>, t': set<nat>, list: seq<nat>, list': seq<nat>, cap: nat,
    c: Category, pool: Pool)
    requires Settled(ranked, entity, t, list, cap, c, pool) && t <= t' && list <= list'
    ensures Settled(ranked, entity, t', list', cap, c, pool)
  {
    if NoneAbove(ranked, entity, t, |ranked|, c, pool) {
      NoneAboveStays(ranked, entity, t, t', |ranked|, c, pool);
    } else if Represented(ranked, list, c) {
      var k :| 0 <= k < |list| && list[k] < |ranked| && ranked[list[k]].lead.category == c;
      assert list'[k] == list[k];
    }
  }

  /** The first `n` categories are settled. */
  ghost predicate FirstSettled(
    ranked: seq<Story>, entity: bool, t: set<nat>, list: seq<nat>, cap: nat, n: nat, pool: Pool)
  {
    n <= |MUSIC_CATEGORIES|
    && forall m :: 0 <= m < n ==> Settled(ranked, entity, t, list, cap, MUSIC_CATEGORIES[m], pool)
  }

  lemma FirstSettledStays(
    ranked: seq<Story>, entity: bool, t: set<nat>, t': set<nat>, list: seq<nat>, list': seq<nat>, cap: nat, n: nat,
    pool: Pool)
    requires FirstSettled(ranked, entity, t, list, cap, n, pool) && t <= t' && list <= list'
    ensures FirstSettled(ranked, entity, t', list', cap, n, pool)
  {
    hide Settled;
    forall m | 0 <= m < n
      ensures Settled(ranked, entity, t', list', cap, MUSIC_CATEGORIES[m], pool)
    {
      SettledStays(ranked, entity, t, t', list, list', cap, MUSIC_CATEGORIES[m], pool);
    }
  }

  lemma OneMoreSettled(
    ranked: seq<Story>, entity: bool, t: set<nat>, list: seq<nat>, cap: nat, k: nat, pool: Pool)
    requires k < |MUSIC_CATEGORIES| && FirstSettled(ranked, entity, t, list, cap, k, pool)
    requires Settled(ranked, entity, t, list, cap, MUSIC_CATEGORIES[k], pool)
    ensures FirstSettled(ranked, entity, t, list, cap, k + 1, pool)
  {
  }

  method CategoryPass(b: Board, ghost t0: set<nat>, from: seq<nat>, cap: nat, pool: Pool) returns (list: seq<nat>)
    requires b.Valid() && |from| <= cap && b.taken == t0 + AsSet(from)
    modifies b
    ensures b.Valid() && from <= list && |list| <= cap && b.taken == t0 + AsSet(list)
    ensures SpreadFrom(b.ranked, b.entity, t0, list, |from|, |list|, pool)
    ensures forall c :: Settled(b.ranked, b.entity, b.taken, list, cap, c, pool)
  {
    list := from;
    hide Fits, WithinCaps, CountersOk, Settled, NoneAbove, SpreadAt;
    for k := 0 to |MUSIC_CATEGORIES|
      invariant b.Valid() && from <= list && |list| <= cap && b.taken == t0 + AsSet(list)
      invariant SpreadFrom(b.ranked, b.entity, t0, list, |from|, |list|, pool)
      invariant NumberedBelow(b.ranked, list, |from|, k)
      invariant FirstSettled(b.ranked, b.entity, b.taken, list, cap, k, pool)
    {
      list := CategoryStep(b, t0, |from|, list, cap, pool, k);
    }
    EveryCategory(b.ranked, b.entity, b.taken, list, cap, pool);
  }

  lemma EveryCategory(ranked: seq<Story>, entity: bool, t: set<nat>, list: seq<nat>, cap: nat, pool: Pool)
    requires FirstSettled(ranked, entity, t, list, cap, |MUSIC_CATEGORIES|, pool)
    ensures forall c :: Settled(ranked, entity, t, list, cap, c, pool)
  {
    hide Settled;
    forall c: Category
      ensures Settled(ranked, entity, t, list, cap, c, pool)
    {
      assert MUSIC_CATEGORIES[CategoryNo(c)] == c;
    }
  }

  /** One turn of the category loop. */
  method CategoryStep(b: Board, ghost t0: set<nat>, ghost lo: nat, list0: seq<nat>, cap: nat, pool: Pool, k: nat)
    returns (list: seq<nat>)
    requires b.Valid() && |list0| <= cap && k < |MUSIC_CATEGORIES| && b.taken == t0 + AsSet(list0)
    requires SpreadFrom(b.ranked, b.entity, t0, list0, lo, |list0|, pool) && NumberedBelow(b.ranked, list0, lo, k)
    requires FirstSettled(b.ranked, b.entity, b.taken, list0, cap, k, pool)
    modifies b
    ensures b.Valid() && list0 <= list && |list| <= cap && b.taken == t0 + AsSet(list)
    ensures SpreadFrom(b.ranked, b.entity, t0, list, lo, |list|, pool) && NumberedBelow(b.ranked, list, lo, k + 1)
    ensures FirstSettled(b.ranked, b.entity, b.taken, list, cap, k + 1, pool)
  {
    hide Fits, WithinCaps, CountersOk, NoneAbove, SpreadFrom, CategoryNo, FirstSettled, NumberedBelow;
    hide Represented, IsNextOfCategory;
    var c := MUSIC_CATEGORIES[k];
    list := list0;
    var best := BestOfCategory(b, c, pool);
    if best.Some? && |list| < cap && !Represented(b.ranked, list, c) {
      StepTakes(b.ranked, b.entity, t0, lo, list, cap, k, pool, best.value);
      NextInRange(b.ranked, b.entity, b.taken, best.value, pool);
      b.Take(best.value);
      list := list + [best.value];
    } else {
      StepSkips(b.ranked, b.entity, b.taken, lo, list, cap, k, pool);
    }
  }

  lemma NextInRange(ranked: seq<Story>, entity: bool, t: set<nat>, i: nat, pool: Pool)
    requires IsNextOfCategory(ranked, entity, t, i, pool)
    ensures i < |ranked| && Fits(ranked, entity, t, i)
  {
  }

  lemma StepTakes(
    ranked: seq<Story>, entity: bool, t0: set<nat>, lo: nat, list: seq<nat>, cap: nat, k: nat, pool: Pool, i: nat)
    requires SpreadFrom(ranked, entity, t0, list, lo, |list|, pool) && NumberedBelow(ranked, list, lo, k)
    requires k < |MUSIC_CATEGORIES| && FirstSettled(ranked, entity, t0 + AsSet(list), list, cap, k, pool)
    requires IsNextOfCategory(ranked, entity, t0 + AsSet(list), i, pool)
    requires ranked[i].lead.category == MUSIC_CATEGORIES[k] && !Represented(ranked, list, MUSIC_CATEGORIES[k])
    requires |list| < cap
    ensures t0 + AsSet(list + [i]) == t0 + AsSet(list) + {i}
    ensures SpreadFrom(ranked, entity, t0, list + [i], lo, |list| + 1, pool)
    ensures NumberedBelow(ranked, list + [i], lo, k + 1)
    ensures FirstSettled(ranked, entity, t0 + AsSet(list + [i]), list + [i], cap, k + 1, pool)
  {
    assert CategoryNo(MUSIC_CATEGORIES[k]) == k;
    SettledIsUsedUp(ranked, entity, t0 + AsSet(list), list, cap, k, pool);
    hide EarlierUsedUp, CategoryNo, SpreadFrom, FirstSettled, NumberedBelow, IsNextOfCategory, Represented;
    hide AsSet, Settled, Wants, Fits, NoneAbove;
    var t := t0 + AsSet(list);
    OneMoreOnAir(t0, list, i);
    SpreadOne(ranked, entity, t0, list, lo, pool, i);
    NextInRange(ranked, entity, t, i, pool);
    NumberedOne(ranked, list, lo, i);
    FirstSettledStays(ranked, entity, t, t + {i}, list, list + [i], cap, k, pool);
    RepresentedIsSettled(ranked, entity, t + {i}, list + [i], cap, MUSIC_CATEGORIES[k], pool);
    OneMoreSettled(ranked, entity, t + {i}, list + [i], cap, k, pool);
  }

  lemma SettledIsUsedUp(
    ranked: seq<Story>, entity: bool, t: set<nat>, list: seq<nat>, cap: nat, k: nat, pool: Pool)
    requires k < |MUSIC_CATEGORIES| && |list| < cap && FirstSettled(ranked, entity, t, list, cap, k, pool)
    ensures EarlierUsedUp(ranked, entity, t, list, MUSIC_CATEGORIES[k], pool)
  {
    hide NoneAbove, Represented;
    forall d: Category | CategoryNo(d) < CategoryNo(MUSIC_CATEGORIES[k]) && !Represented(ranked, list, d)
      ensures NoneAbove(ranked, entity, t, |ranked|, d, pool)
    {
      assert MUSIC_CATEGORIES[CategoryNo(d)] == d;
      assert Settled(ranked, entity, t, list, cap, MUSIC_CATEGORIES[CategoryNo(d)], pool);
    }
  }

  lemma RepresentedIsSettled(
    ranked: seq<Story>, entity: bool, t: set<nat>, list: seq<nat>, cap: nat, c: Category, pool: Pool)
    requires Represented(ranked, list, c)
    ensures Settled(ranked, entity, t, list, cap, c, pool)
  {
  }

  lemma StepSkips(
    ranked: seq<Story>, entity: bool, t: set<nat>, lo: nat, list: seq<nat>, cap: nat, k: nat, pool: Pool)
    requires NumberedBelow(ranked, list, lo, k)
    requires k < |MUSIC_CATEGORIES| && FirstSettled(ranked, entity, t, list, cap, k, pool)
    requires Settled(ranked, entity, t, list, cap, MUSIC_CATEGORIES[k], pool)
    ensures NumberedBelow(ranked, list, lo, k + 1) && FirstSettled(ranked, entity, t, list, cap, k + 1, pool)
  {
    OneMoreSettled(ranked, entity, t, list, cap, k, pool);
  }

  // ---- the three slots ------------------------------------------------------------------------

  datatype Slots = Slots(headline: Option<nat>, also: seq<nat>, music: seq<nat>, musicShort: bool)

  /** Everything picked, slot by slot. */
  function Picks(s: Slots): seq<nat> {
    (if s.headline.Some? then [s.headline.value] else []) + s.also + s.music
  }

  /**
   * "Also this hour", begun with `t0` on air: first the corroborated stories, each the best-ranked that fitted when it
   * was taken, until none fits or the list is full; then whatever else fits, likewise.
   */
  ghost predicate AlsoOk(ranked: seq<Story>, entity: bool, t0: set<nat>, also: seq<nat>, cap: nat, m: nat) {
    && m <= |also| <= cap
    && DrawnFrom(ranked, entity, t0, also, 0, m, MultiOnly)
    && (m < cap ==> Exhausted(ranked, entity, Before(t0, also, m), MultiOnly))
    && DrawnFrom(ranked, entity, t0, also, m, |also|, Anyone)
    && (|also| < cap ==> Exhausted(ranked, entity, t0 + AsSet(also), Anyone))
  }

  method PickAlso(b: Board, alsoCount: nat) returns (also: seq<nat>, ghost m: nat)
    requires b.Valid()
    modifies b
    ensures b.Valid() && b.taken == old(b.taken) + AsSet(also)
    ensures AlsoOk(b.ranked, b.entity, old(b.taken), also, alsoCount, m)
  {
    hide Fits, WithinCaps, CountersOk, DrawnFrom, NoneBelow, Wants;
    ghost var t0 := b.taken;
    assert t0 == t0 + AsSet([]);
    var first := Draw(b, t0, [], alsoCount, MultiOnly);
    m := |first|;
    also := Draw(b, t0, first, alsoCount, Anyone);
    DrawnStays(b.ranked, b.entity, t0, first, also, 0, m, MultiOnly);
    assert also[..m] == first;
  }

  /** One pool of the rotator: picks `lo` to `mid` one to a category, picks `mid` to `hi` whatever fits. */
  ghost predicate PoolOk(
    ranked: seq<Story>, entity: bool, t0: set<nat>, music: seq<nat>, cap: nat, lo: nat, mid: nat, hi: nat, pool: Pool)
  {
    && lo <= mid <= hi <= |music|
    && SpreadFrom(ranked, entity, t0, music, lo, mid, pool)
    && (forall c :: Settled(ranked, entity, Before(t0, music, mid), music[..mid], cap, c, pool))
    && DrawnFrom(ranked, entity, t0, music, mid, hi, pool)
    && (hi < cap ==> Exhausted(ranked, entity, Before(t0, music, hi), pool))
  }

  /**
   * The rotator, begun with `t0` on air: the pool of corroborated stories, then the pool of plain news of one outlet.
   * Neither pool wants a sensitive story.
   */
  ghost predicate MusicOk(
    ranked: seq<Story>, entity: bool, t0: set<nat>, music: seq<nat>, cap: nat, m1: nat, m2: nat, m3: nat)
  {
    && |music| <= cap
    && PoolOk(ranked, entity, t0, music, cap, 0, m1, m2, MusicMulti)
    && PoolOk(ranked, entity, t0, music, cap, m2, m3, |music|, MusicSingle)
  }

  method PickPool(b: Board, ghost t0: set<nat>, from: seq<nat>, cap: nat, pool: Pool)
    returns (list: seq<nat>, ghost mid: nat)
    requires b.Valid() && |from| <= cap && b.taken == t0 + AsSet(from)
    modifies b
    ensures b.Valid() && from <= list && |list| <= cap && b.taken == t0 + AsSet(list)
    ensures PoolOk(b.ranked, b.entity, t0, list, cap, |from|, mid, |list|, pool)
  {
    hide Fits, WithinCaps, CountersOk, SpreadFrom, DrawnFrom, Settled, NoneBelow, NoneAbove;
    var list1 := CategoryPass(b, t0, from, cap, pool);
    mid := |list1|;
    list := Draw(b, t0, list1, cap, pool);
    assert list[..mid] == list1 && list[..|list|] == list;
    SpreadStays(b.ranked, b.entity, t0, list1, list, |from|, mid, pool);
  }

  lemma PoolStays(
    ranked: seq<Story>, entity: bool, t0: set<nat>, music: seq<nat>, music': seq<nat>, cap: nat,
    lo: nat, mid: nat, hi: nat, pool: Pool)
    requires PoolOk(ranked, entity, t0, music, cap, lo, mid, hi, pool) && music <= music'
    ensures PoolOk(ranked, entity, t0, music', cap, lo, mid, hi, pool)
  {
    hide SpreadFrom, DrawnFrom, Settled;
    SpreadStays(ranked, entity, t0, music, music', lo, mid, pool);
    DrawnStays(ranked, entity, t0, music, music', mid, hi, pool);
    BeforeStays(t0, music, music', mid);
    BeforeStays(t0, music, music', hi);
    assert music'[..mid] == music[..mid];
    hide Before;
  }

  method PickMusic(b: Board, cap: nat) returns (music: seq<nat>, ghost m1: nat, ghost m2: nat, ghost m3: nat)
    requires b.Valid()
    modifies b
    ensures b.Valid() && b.taken == old(b.taken) + AsSet(music)
    ensures MusicOk(b.ranked, b.entity, old(b.taken), music, cap, m1, m2, m3)
  {
    hide Fits, WithinCaps, CountersOk, PoolOk;
    ghost var t0 := b.taken;
    assert t0 == t0 + AsSet([]);
    var first;
    first, m1 := PickPool(b, t0, [], cap, MusicMulti);
    m2 := |first|;
    music, m3 := PickPool(b, t0, first, cap, MusicSingle);
    PoolStays(b.ranked, b.entity, t0, first, music, cap, 0, m1, m2, MusicMulti);
  }

  /** The first story of the ranking that fits. */
  method FirstFit(b: Board) returns (r: Option<nat>)
    requires b.Valid()
    ensures r.None? ==> Exhausted(b.ranked, b.entity, b.taken, Anyone)
    ensures r.Some? ==>
              && r.value < |b.ranked| && Fits(b.ranked, b.entity, b.taken, r.value)
              && NoneBelow(b.ranked, b.entity, b.taken, r.value, Anyone)
  {
    NoneBelowStart(b.ranked, b.entity, b.taken, Anyone);
    hide Fits, WithinCaps, CountersOk, NoneBelow;
    for i := 0 to |b.ranked|
      invariant NoneBelow(b.ranked, b.entity, b.taken, i, Anyone)
    {
      if b.FitsNow(i) {
        return Some(i);
      }
      NoneBelowNext(b.ranked, b.entity, b.taken, i, Anyone);
    }
    r := None;
  }

  /**
   * The whole hour: the lead of the ranking is the headline, "also" is as AlsoOk says beside it, and music as MusicOk
   * says beside both.
   */
  ghost predicate RightSlots(ranked: seq<Story>, entity: bool, alsoCount: nat, musicMin: nat, musicMax: nat, s: Slots) {
    && s.headline == (if ranked == [] then None else Some(0))
    && (exists m :: AlsoOk(ranked, entity, AsSet(HeadOf(s)), s.also, alsoCount, m))
    && (exists m1, m2, m3 ::
          MusicOk(ranked, entity, AsSet(HeadOf(s)) + AsSet(s.also), s.music, musicMax, m1, m2, m3))
    && (s.musicShort <==> |s.music| < musicMin)
  }

  ghost predicate InRange(ranked: seq<Story>, s: Slots) {
    forall k :: 0 <= k < |Picks(s)| ==> Picks(s)[k] < |ranked|
  }

  ghost predicate NoneSensitive(ranked: seq<Story>, list: seq<nat>) {
    forall k :: 0 <= k < |list| ==> list[k] < |ranked| && !ranked[list[k]].sensitive
  }

  /** The picks keep the shared caps, tell no story twice, and none over music is sensitive. */
  ghost predicate Presentable(ranked: seq<Story>, entity: bool, s: Slots) {
    && WithinCaps(ranked, entity, AsSet(Picks(s))) && Distinct(Picks(s)) && InRange(ranked, s)
    && NoneSensitive(ranked, s.music)
  }

  lemma PresentableMeans(ranked: seq<Story>, entity: bool, s: Slots)
    requires Presentable(ranked, entity, s)
    ensures WithinCaps(ranked, entity, AsSet(Picks(s))) && Distinct(Picks(s)) && InRange(ranked, s)
    ensures NoneSensitive(ranked, s.music)
  {
  }

  /**
   * A slot is left short only when it must be. If "also" is short, nothing fits any more and music is empty; if music
   * is short, neither pool of it has a story that still fits.
   */
  ghost predicate ShortIsForced(ranked: seq<Story>, entity: bool, alsoCount: nat, musicMax: nat, s: Slots) {
    && |s.also| <= alsoCount && |s.music| <= musicMax
    && (|s.also| < alsoCount ==> s.music == [] && Exhausted(ranked, entity, AsSet(Picks(s)), Anyone))
    && (|s.music| < musicMax ==>
          && Exhausted(ranked, entity, AsSet(Picks(s)), MusicMulti)
          && Exhausted(ranked, entity, AsSet(Picks(s)), MusicSingle))
  }

  function HeadOf(s: Slots): seq<nat> {
    if s.headline.Some? then [s.headline.value] else []
  }

  method PickSlots(ranked: seq<Story>, entity: bool, alsoCount: nat, musicMin: nat, musicMax: nat)
    returns (s: Slots)
    ensures RightSlots(ranked, entity, alsoCount, musicMin, musicMax, s)
    ensures Presentable(ranked, entity, s) && ShortIsForced(ranked, entity, alsoCount, musicMax, s)
  {
    var b := new Board(ranked, entity);
    var headline := FirstFit(b);
    FirstIsTop(ranked, entity, headline);
    hide Fits, WithinCaps, CountersOk, AlsoOk, MusicOk, NoneBelow, RightSlots, HeadOf;
    hide Presentable, ShortIsForced;
    if headline.Some? {
      b.Take(headline.value);
    }
    ghost var t0 := b.taken;
    ghost var m, m1, m2, m3;
    var also, music;
    also, m := PickAlso(b, alsoCount);
    music, m1, m2, m3 := PickMusic(b, musicMax);
    s := Slots(headline, also, music, |music| < musicMin);
    ValidCaps(b);
    HeadIs(s, t0);
    AllRight(ranked, entity, alsoCount, musicMin, musicMax, s, b.taken, m, m1, m2, m3);
  }

  lemma HeadIs(s: Slots, t0: set<nat>)
    requires t0 == if s.headline.Some? then {s.headline.value} else {}
    ensures t0 == AsSet(HeadOf(s))
  {
  }

  lemma AllRight(
    ranked: seq<Story>, entity: bool, alsoCount: nat, musicMin: nat, musicMax: nat, s: Slots, taken: set<nat>,
    m: nat, m1: nat, m2: nat, m3: nat)
    requires s.headline == (if ranked == [] then None else Some(0)) && (s.musicShort <==> |s.music| < musicMin)
    requires AlsoOk(ranked, entity, AsSet(HeadOf(s)), s.also, alsoCount, m)
    requires MusicOk(ranked, entity, AsSet(HeadOf(s)) + AsSet(s.also), s.music, musicMax, m1, m2, m3)
    requires taken == AsSet(HeadOf(s)) + AsSet(s.also) + AsSet(s.music) && WithinCaps(ranked, entity, taken)
    ensures RightSlots(ranked, entity, alsoCount, musicMin, musicMax, s)
    ensures Presentable(ranked, entity, s) && ShortIsForced(ranked, entity, alsoCount, musicMax, s)
  {
    hide AlsoOk, MusicOk, ShortIsForced;
    MusicIsFree(ranked, entity, AsSet(HeadOf(s)) + AsSet(s.also), s.music, musicMax, m1, m2, m3);
    ShortMeansNothingLeft(ranked, entity, alsoCount, musicMax, s, m, m1, m2, m3);
    Assembled(ranked, entity, alsoCount, musicMax, s, m, m1, m2, m3);
    CappedInRange(ranked, entity, s);
    hide WithinCaps;
  }

  lemma CappedInRange(ranked: seq<Story>, entity: bool, s: Slots)
    requires WithinCaps(ranked, entity, AsSet(Picks(s)))
    ensures InRange(ranked, s)
  {
    forall k | 0 <= k < |Picks(s)|
      ensures Picks(s)[k] < |ranked|
    {
      assert Picks(s)[k] in AsSet(Picks(s));
    }
  }

  lemma ValidCaps(b: Board)
    requires b.Valid()
    ensures WithinCaps(b.ranked, b.entity, b.taken)
  {
  }

  /** Nothing on air constrains nothing: the top of the ranking always fits. */
  lemma FirstIsTop(ranked: seq<Story>, entity: bool, r: Option<nat>)
    requires r.None? ==> Exhausted(ranked, entity, {}, Anyone)
    requires r.Some? ==> r.value < |ranked| && NoneBelow(ranked, entity, {}, r.value, Anyone)
    ensures r == if ranked == [] then None else Some(0)
  {
    if ranked != [] {
      assert Fits(ranked, entity, {}, 0) by {
        assert OfPublisher(ranked, {}, Publisher(ranked[0])) == {};
        assert Sports(ranked, {}) == {};
        if ranked[0].lead.topic.Some? {
          assert OfTopic(ranked, {}, ranked[0].lead.topic.value) == {};
        }
      }
      assert Wants(ranked[0], Anyone);
    }
  }

  /** A pick was free when it was taken: neither on air before the list nor on the list already. */
  ghost predicate FreeAt(t0: set<nat>, list: seq<nat>, k: nat)
    requires k < |list|
  {
    list[k] !in Before(t0, list, k)
  }

  lemma DrawnIsFree(
    ranked: seq<Story>, entity: bool, t0: set<nat>, list: seq<nat>, lo: nat, hi: nat, pool: Pool)
    requires DrawnFrom(ranked, entity, t0, list, lo, hi, pool)
    ensures forall k :: lo <= k < hi ==> FreeAt(t0, list, k) && list[k] < |ranked| && Wants(ranked[list[k]], pool)
  {
    hide NoneBelow, Before, Wants;
    forall k | lo <= k < hi
      ensures FreeAt(t0, list, k) && list[k] < |ranked| && Wants(ranked[list[k]], pool)
    {
      assert IsNext(ranked, entity, Before(t0, list, k), list[k], pool);
      hide Fits;
      FitsIsFree(ranked, entity, Before(t0, list, k), list[k]);
    }
  }

  lemma SpreadIsFree(
    ranked: seq<Story>, entity: bool, t0: set<nat>, list: seq<nat>, lo: nat, hi: nat, pool: Pool)
    requires SpreadFrom(ranked, entity, t0, list, lo, hi, pool)
    ensures forall k :: lo <= k < hi ==> FreeAt(t0, list, k) && list[k] < |ranked| && Wants(ranked[list[k]], pool)
  {
    hide NoneAbove, Before, Wants, Represented, CategoryNo, EarlierUsedUp;
    forall k | lo <= k < hi
      ensures FreeAt(t0, list, k) && list[k] < |ranked| && Wants(ranked[list[k]], pool)
    {
      assert SpreadAt(ranked, entity, t0, list, k, pool);
      hide Fits;
      FitsIsFree(ranked, entity, Before(t0, list, k), list[k]);
    }
  }

  /** Picks that were free when taken are all different, and none was on air before. */
  lemma FreeMeans(t0: set<nat>, list: seq<nat>)
    requires forall k :: 0 <= k < |list| ==> FreeAt(t0, list, k)
    ensures Distinct(list) && forall k :: 0 <= k < |list| ==> list[k] !in t0
  {
    forall k | 0 <= k < |list|
      ensures list[k] !in t0
    {
      assert FreeAt(t0, list, k);
    }
    forall k, l | 0 <= k < l < |list|
      ensures list[k] != list[l]
    {
      assert FreeAt(t0, list, l);
      assert list[..l][k] == list[k];
    }
  }

  lemma AlsoIsFree(ranked: seq<Story>, entity: bool, t0: set<nat>, also: seq<nat>, cap: nat, m: nat)
    requires AlsoOk(ranked, entity, t0, also, cap, m)
    ensures Distinct(also) && forall k :: 0 <= k < |also| ==> also[k] !in t0
  {
    DrawnIsFree(ranked, entity, t0, also, 0, m, MultiOnly);
    DrawnIsFree(ranked, entity, t0, also, m, |also|, Anyone);
    hide DrawnFrom, FreeAt;
    FreeMeans(t0, also);
  }

  /** What a pool of the rotator takes: what it wants, and nothing twice. */
  lemma PoolIsFree(
    ranked: seq<Story>, entity: bool, t0: set<nat>, music: seq<nat>, cap: nat, lo: nat, mid: nat, hi: nat, pool: Pool)
    requires PoolOk(ranked, entity, t0, music, cap, lo, mid, hi, pool)
    ensures lo <= hi <= |music|
    ensures forall k :: lo <= k < hi ==> FreeAt(t0, music, k) && music[k] < |ranked| && Wants(ranked[music[k]], pool)
  {
    hide DrawnFrom, SpreadFrom, FreeAt, Wants;
    SpreadIsFree(ranked, entity, t0, music, lo, mid, pool);
    DrawnIsFree(ranked, entity, t0, music, mid, hi, pool);
  }

  lemma MusicIsFree(
    ranked: seq<Story>, entity: bool, t0: set<nat>, music: seq<nat>, cap: nat, m1: nat, m2: nat, m3: nat)
    requires MusicOk(ranked, entity, t0, music, cap, m1, m2, m3)
    ensures Distinct(music) && forall k :: 0 <= k < |music| ==> music[k] !in t0
    ensures m2 <= |music| && forall k :: 0 <= k < |music| ==>
              music[k] < |ranked| && Wants(ranked[music[k]], if k < m2 then MusicMulti else MusicSingle)
  {
    hide PoolOk, FreeAt, Wants;
    PoolIsFree(ranked, entity, t0, music, cap, 0, m1, m2, MusicMulti);
    PoolIsFree(ranked, entity, t0, music, cap, m2, m3, |music|, MusicSingle);
    FreeMeans(t0, music);
  }

  lemma Assembled(
    ranked: seq<Story>, entity: bool, alsoCount: nat, musicMax: nat, s: Slots, m: nat, m1: nat, m2: nat, m3: nat)
    requires AlsoOk(ranked, entity, AsSet(HeadOf(s)), s.also, alsoCount, m)
    requires MusicOk(ranked, entity, AsSet(HeadOf(s)) + AsSet(s.also), s.music, musicMax, m1, m2, m3)
    ensures AsSet(Picks(s)) == AsSet(HeadOf(s)) + AsSet(s.also) + AsSet(s.music) && Distinct(Picks(s))
  {
    AlsoIsFree(ranked, entity, AsSet(HeadOf(s)), s.also, alsoCount, m);
    MusicIsFree(ranked, entity, AsSet(HeadOf(s)) + AsSet(s.also), s.music, musicMax, m1, m2, m3);
    hide AlsoOk, MusicOk;
    assert Picks(s) == HeadOf(s) + s.also + s.music;
    Joined(HeadOf(s), s.also);
    Joined(HeadOf(s) + s.also, s.music);
  }

  lemma Joined(a: seq<nat>, b: seq<nat>)
    ensures AsSet(a + b) == AsSet(a) + AsSet(b)
    ensures Distinct(a + b) <==> Distinct(a) && Distinct(b) && forall x :: x in a ==> x !in b
  {
    var p := a + b;
    if Distinct(p) {
      assert forall k :: 0 <= k < |a| ==> p[k] == a[k];
      assert forall k :: 0 <= k < |b| ==> p[|a| + k] == b[k];
    } else {
      var i, j :| 0 <= i < j < |p| && p[i] == p[j];
      if j < |a| {
        assert a[i] == a[j];
      } else if i < |a| {
        assert a[i] in a && b[j - |a|] in b;
      } else {
        assert b[i - |a|] == b[j - |a|];
      }
    }
  }

  // ---- what it means that a slot is short ------------------------------------------------------

  lemma ExhaustedStays(ranked: seq<Story>, entity: bool, t: set<nat>, t': set<nat>, pool: Pool)
    requires Exhausted(ranked, entity, t, pool) && t <= t'
    ensures Exhausted(ranked, entity, t', pool)
  {
    NoneBelowStays(ranked, entity, t, t', |ranked|, pool);
  }

  /** When a pool is used up, no other pool takes a story this one would want. */
  lemma ExhaustedMeans(ranked: seq<Story>, entity: bool, t: set<nat>, i: nat, pool: Pool)
    requires i < |ranked| && Exhausted(ranked, entity, t, pool) && Wants(ranked[i], pool)
    ensures !Fits(ranked, entity, t, i)
  {
  }

  lemma FirstMusicFits(
    ranked: seq<Story>, entity: bool, t0: set<nat>, music: seq<nat>, cap: nat, m1: nat, m2: nat, m3: nat)
    requires MusicOk(ranked, entity, t0, music, cap, m1, m2, m3) && music != []
    ensures music[0] < |ranked| && Fits(ranked, entity, t0, music[0])
  {
    hide Fits, NoneBelow, NoneAbove, Wants, Settled, Represented, CategoryNo, EarlierUsedUp;
    assert Before(t0, music, 0) == t0;
    if m1 > 0 {
      assert SpreadAt(ranked, entity, t0, music, 0, MusicMulti);
    } else if m2 > 0 {
      assert IsNext(ranked, entity, Before(t0, music, 0), music[0], MusicMulti);
    } else if m3 > 0 {
      assert SpreadAt(ranked, entity, t0, music, 0, MusicSingle);
    } else {
      assert IsNext(ranked, entity, Before(t0, music, 0), music[0], MusicSingle);
    }
  }

  lemma ShortMeansNothingLeft(
    ranked: seq<Story>, entity: bool, alsoCount: nat, musicMax: nat, s: Slots, m: nat, m1: nat, m2: nat, m3: nat)
    requires AlsoOk(ranked, entity, AsSet(HeadOf(s)), s.also, alsoCount, m)
    requires MusicOk(ranked, entity, AsSet(HeadOf(s)) + AsSet(s.also), s.music, musicMax, m1, m2, m3)
    ensures ShortIsForced(ranked, entity, alsoCount, musicMax, s)
  {
    var t1 := AsSet(HeadOf(s)) + AsSet(s.also);
    Assembled(ranked, entity, alsoCount, musicMax, s, m, m1, m2, m3);
    hide WithinCaps, Fits, NoneBelow, DrawnFrom, SpreadFrom, Settled, Wants;
    if |s.also| < alsoCount {
      ExhaustedStays(ranked, entity, t1, AsSet(Picks(s)), Anyone);
      if s.music != [] {
        FirstMusicFits(ranked, entity, t1, s.music, musicMax, m1, m2, m3);
        AnyoneIsWanted(ranked[s.music[0]]);
        ExhaustedMeans(ranked, entity, t1, s.music[0], Anyone);
      }
    }
    if |s.music| < musicMax {
      assert s.music[..|s.music|] == s.music;
      ExhaustedStays(ranked, entity, Before(t1, s.music, m2), AsSet(Picks(s)), MusicMulti);
    }
  }

  lemma AnyoneIsWanted(s: Story)
    ensures Wants(s, Anyone)
  {
  }
}
