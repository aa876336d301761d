/**
 * What the picker's promises mean for the stories themselves (backend/src/radio/radioRank.js, pickSlots): which story
 * is preferred to which, what keeps a story off the air, and what may air over music, all on the fields of a story.
 */
module SlotLaws {
  import opened Common
  import opened News
  import opened SlotPicker

  predicate SamePublisher(a: Story, b: Story) {
    a.lead.source == b.lead.source || (a.lead.source in {"", "?"} && b.lead.source in {"", "?"})
  }

  /** Why story `i` may not join those `on` air: it tells a story told already, or takes a place that is taken. */
  ghost predicate Shut(ranked: seq<Story>, entity: bool, on: seq<nat>, i: nat)
    requires i < |ranked|
  {
    || i in on
    || (exists j :: j in on && j < |ranked| && SameStory(ranked[i], ranked[j], entity))
    || (exists j :: j in on && j < |ranked| && ranked[i].sport && ranked[j].sport)
    || (exists j :: j in on && j < |ranked| && ranked[i].lead.topic.Some?
                    && ranked[i].lead.topic == ranked[j].lead.topic)
    || (exists j, k :: j in on && k in on && j != k && j < |ranked| && k < |ranked|
                       && SamePublisher(ranked[i], ranked[j]) && SamePublisher(ranked[i], ranked[k]))
  }

  /** Not sensitive, and plainly news: reported by two outlets, or without an article that is not hard news. */
  ghost predicate PlainNews(s: Story) {
    && !s.sensitive
    && (|s.outlets| < 2 && s.articles == [] ==> !s.lead.notHardNews)
    && (|s.outlets| < 2 ==> forall a :: a in s.articles ==> !a.notHardNews)
  }

  /** Two outlets before one, then by rank. */
  predicate Preferred(ranked: seq<Story>, i: nat, j: nat)
    requires i < |ranked| && j < |ranked|
  {
    if |ranked[i].outlets| >= 2 && |ranked[j].outlets| < 2 then true
    else if |ranked[i].outlets| < 2 && |ranked[j].outlets| >= 2 then false
    else i < j
  }

  /** Some story played before is of the same category. */
  ghost predicate Heard(ranked: seq<Story>, before: seq<nat>, i: nat)
    requires i < |ranked|
  {
    exists j :: j in before && j < |ranked| && ranked[j].lead.category == ranked[i].lead.category
  }

  predicate EarlierInShow(c: Category, d: Category) {
    match c
    case World => d != World
    case Business => d !in {World, Business}
    case Tech => d in {Politics, Health, Science}
    case Politics => d in {Health, Science}
    case Health => d == Science
    case Science => false
  }

  /**
   * Over music: two outlets before one, then a category not heard before one that was, then unheard categories in the
   * order of the show, then by rank.
   */
  ghost predicate PreferredOverMusic(ranked: seq<Story>, before: seq<nat>, i: nat, j: nat)
    requires i < |ranked| && j < |ranked|
  {
    if |ranked[i].outlets| >= 2 && |ranked[j].outlets| < 2 then true
    else if |ranked[i].outlets| < 2 && |ranked[j].outlets| >= 2 then false
    else if !Heard(ranked, before, i) && Heard(ranked, before, j) then true
    else if Heard(ranked, before, i) && !Heard(ranked, before, j) then false
    else if !Heard(ranked, before, i) && ranked[i].lead.category != ranked[j].lead.category
    then EarlierInShow(ranked[i].lead.category, ranked[j].lead.category)
    else i < j
  }

  /** Nothing that is not shut out beside those `on` air is preferred to story `i`, which is not shut out either. */
  ghost predicate IsNextAlso(ranked: seq<Story>, entity: bool, on: seq<nat>, i: nat) {
    && i < |ranked| && !Shut(ranked, entity, on, i)
    && forall j: nat :: j < |ranked| && Preferred(ranked, j, i) ==> Shut(ranked, entity, on, j)
  }

  ghost predicate IsNextMusic(ranked: seq<Story>, entity: bool, on: seq<nat>, before: seq<nat>, i: nat) {
    && i < |ranked| && PlainNews(ranked[i]) && !Shut(ranked, entity, on, i)
    && forall j: nat :: j < |ranked| && PlainNews(ranked[j]) && PreferredOverMusic(ranked, before, j, i) ==>
         Shut(ranked, entity, on, j)
  }

  ghost predicate NoStory(ranked: seq<Story>, entity: bool, on: seq<nat>) {
    forall j: nat :: j < |ranked| ==> Shut(ranked, entity, on, j)
  }

  ghost predicate NoMusic(ranked: seq<Story>, entity: bool, on: seq<nat>) {
    forall j: nat :: j < |ranked| && PlainNews(ranked[j]) ==> Shut(ranked, entity, on, j)
  }

  /**
   * The hour by preference alone. The headline is the top of the ranking; every other pick is the most preferred of
   * what is not shut out by the picks before it; a slot is short only when nothing is left for it.
   */
  ghost predicate GreedyHour(ranked: seq<Story>, entity: bool, alsoCount: nat, musicMin: nat, musicMax: nat, s: Slots) {
    && s.headline == (if ranked == [] then None else Some(0))
    && |s.also| <= alsoCount && |s.music| <= musicMax && (s.musicShort <==> |s.music| < musicMin)
    && (forall k :: 0 <= k < |s.also| ==> IsNextAlso(ranked, entity, [0] + s.also[..k], s.also[k]))
    && (forall k :: 0 <= k < |s.music| ==>
          IsNextMusic(ranked, entity, [0] + s.also + s.music[..k], s.music[..k], s.music[k]))
    && (|s.also| < alsoCount ==> NoStory(ranked, entity, [0] + s.also))
    && (|s.music| < musicMax ==> NoMusic(ranked, entity, [0] + s.also + s.music))
  }

  /** Two stories are the same when an article of the one tells the same story as an article of the other. */
  lemma SameStoryMeans(a: Story, b: Story, entity: bool)
    requires a.articles != [] && b.articles != []
    ensures SameStory(a, b, entity) <==>
              exists x, y :: x in a.articles && y in b.articles && SameArticle(x, y, entity)
  {
    if x, y :| x in a.articles && y in b.articles && SameArticle(x, y, entity) {
      var i :| 0 <= i < |a.articles| && a.articles[i] == x;
      var j :| 0 <= j < |b.articles| && b.articles[j] == y;
      assert SameArticle(ArticlesOf(a)[i], ArticlesOf(b)[j], entity);
    }
    if i, j :| 0 <= i < |ArticlesOf(a)| && 0 <= j < |ArticlesOf(b)|
               && SameArticle(ArticlesOf(a)[i], ArticlesOf(b)[j], entity) {
      assert a.articles[i] in a.articles && b.articles[j] in b.articles;
    }
  }

  lemma SportsFull(ranked: seq<Story>, on: seq<nat>)
    ensures |Sports(ranked, AsSet(on))| < 1 <==> !exists j :: j in on && j < |ranked| && ranked[j].sport
  {
    var t := Sports(ranked, AsSet(on));
    assert |t| < 1 <==> t == {};
    if j :| j in on && j < |ranked| && ranked[j].sport {
      assert j in t;
    }
  }

  lemma TopicFull(ranked: seq<Story>, on: seq<nat>, topic: string)
    ensures |OfTopic(ranked, AsSet(on), topic)| < 1 <==>
              !exists j :: j in on && j < |ranked| && ranked[j].lead.topic == Some(topic)
  {
    var t := OfTopic(ranked, AsSet(on), topic);
    assert |t| < 1 <==> t == {};
    if j :| j in on && j < |ranked| && ranked[j].lead.topic == Some(topic) {
      assert j in t;
    }
  }

  lemma TwoOrMore(t: set<nat>)
    ensures |t| < 2 <==> !exists j, k :: j in t && k in t && j != k
  {
    if t != {} {
      var j :| j in t;
      assert |t - {j}| == |t| - 1;
      if t - {j} != {} {
        var k :| k in t - {j};
        assert j in t && k in t;
      }
    }
  }

  lemma PublisherFull(ranked: seq<Story>, on: seq<nat>, s: Story)
    ensures |OfPublisher(ranked, AsSet(on), Publisher(s))| < 2 <==>
              !exists j, k :: j in on && k in on && j != k && j < |ranked| && k < |ranked|
                              && SamePublisher(s, ranked[j]) && SamePublisher(s, ranked[k])
  {
    var t := OfPublisher(ranked, AsSet(on), Publisher(s));
    TwoOrMore(t);
    assert forall j: nat :: j in t <==> j in on && j < |ranked| && SamePublisher(s, ranked[j]);
  }

  /** The counters and the caps say what it means to be shut out. */
  lemma FitsIff(ranked: seq<Story>, entity: bool, on: seq<nat>, i: nat)
    requires i < |ranked|
    ensures Fits(ranked, entity, AsSet(on), i) <==> !Shut(ranked, entity, on, i)
  {
    var s := ranked[i];
    hide SameStory, Sports, OfTopic, OfPublisher, SamePublisher, Publisher;
    SportsFull(ranked, on);
    PublisherFull(ranked, on, s);
    if s.lead.topic.Some? {
      TopicFull(ranked, on, s.lead.topic.value);
    }
  }

  // ---- "also this hour" ------------------------------------------------------------------------

  lemma OnAirAlready(head: seq<nat>, list: seq<nat>, k: nat)
    requires k <= |list|
    ensures Before(AsSet(head), list, k) == AsSet(head + list[..k])
  {
  }

  lemma AlsoStep(ranked: seq<Story>, entity: bool, t0: set<nat>, also: seq<nat>, cap: nat, m: nat, k: nat)
    requires AlsoOk(ranked, entity, t0, also, cap, m) && k < |also|
    ensures also[k] < |ranked| && Fits(ranked, entity, Before(t0, also, k), also[k])
    ensures forall j: nat :: j < |ranked| && Preferred(ranked, j, also[k]) ==>
              !Fits(ranked, entity, Before(t0, also, k), j)
  {
    hide Fits, Before;
    if k < m {
      assert IsNext(ranked, entity, Before(t0, also, k), also[k], MultiOnly);
    } else {
      assert IsNext(ranked, entity, Before(t0, also, k), also[k], Anyone);
      BeforeGrows(t0, also, m, k);
      ExhaustedStays(ranked, entity, Before(t0, also, m), Before(t0, also, k), MultiOnly);
    }
  }

  lemma BeforeGrows(t0: set<nat>, list: seq<nat>, k: nat, l: nat)
    requires k <= l <= |list|
    ensures Before(t0, list, k) <= Before(t0, list, l)
  {
  }

  /**
   * Every pick of "also" is the most preferred of all stories not shut out by the headline and the picks before it:
   * a story of one outlet is taken only when every story of two is shut out.
   */
  lemma AlsoIsGreedy(
    ranked: seq<Story>, entity: bool, alsoCount: nat, musicMin: nat, musicMax: nat, s: Slots, k: nat)
    requires RightSlots(ranked, entity, alsoCount, musicMin, musicMax, s) && k < |s.also|
    ensures IsNextAlso(ranked, entity, [0] + s.also[..k], s.also[k])
  {
    hide Shut, Fits, AlsoOk, MusicOk, Preferred, Before;
    var m :| AlsoOk(ranked, entity, AsSet(HeadOf(s)), s.also, alsoCount, m);
    AlsoStep(ranked, entity, AsSet(HeadOf(s)), s.also, alsoCount, m, k);
    OnAirAlready([0], s.also, k);
    forall j: nat | j < |ranked|
      ensures Fits(ranked, entity, Before(AsSet([0]), s.also, k), j) <==> !Shut(ranked, entity, [0] + s.also[..k], j)
    {
      FitsIff(ranked, entity, [0] + s.also[..k], j);
    }
  }

  // ---- over music -----------------------------------------------------------------------------

  lemma HeardIff(ranked: seq<Story>, before: seq<nat>, i: nat)
    requires i < |ranked|
    ensures Heard(ranked, before, i) <==> Represented(ranked, before, ranked[i].lead.category)
  {
    if j :| j in before && j < |ranked| && ranked[j].lead.category == ranked[i].lead.category {
      var k :| 0 <= k < |before| && before[k] == j;
    }
  }

  lemma OrderOfShow(c: Category, d: Category)
    ensures EarlierInShow(c, d) <==> CategoryNo(c) < CategoryNo(d)
  {
  }

  lemma PoolOf(s: Story)
    ensures Wants(s, MusicMulti) <==> PlainNews(s) && |s.outlets| >= 2
    ensures Wants(s, MusicSingle) <==> PlainNews(s) && |s.outlets| < 2
  {
    assert MusicIneligible(s) <==> |s.outlets| < 2 && exists a :: a in ArticlesOf(s) && a.notHardNews;
    assert s.articles == [] ==> s.lead in ArticlesOf(s);
  }

  /** Inside one pool, whoever is preferred to the pick did not fit. */
  lemma PoolStep(
    ranked: seq<Story>, entity: bool, t0: set<nat>, music: seq<nat>, cap: nat, lo: nat, mid: nat, hi: nat, pool: Pool,
    k: nat, j: nat)
    requires PoolOk(ranked, entity, t0, music, cap, lo, mid, hi, pool) && lo <= k < hi && k < cap
    requires j < |ranked| && Wants(ranked[j], pool) && music[k] < |ranked|
    requires (|ranked[j].outlets| >= 2) == (|ranked[music[k]].outlets| >= 2)
    requires PreferredOverMusic(ranked, music[..k], j, music[k])
    ensures !Fits(ranked, entity, Before(t0, music, k), j)
  {
    var c, d := ranked[j].lead.category, ranked[music[k]].lead.category;
    HeardIff(ranked, music[..k], j);
    HeardIff(ranked, music[..k], music[k]);
    OrderOfShow(c, d);
    hide Fits, Before, Heard, Represented, Wants, EarlierInShow, InCategoryOrder;
    if k < mid {
      assert SpreadAt(ranked, entity, t0, music, k, pool);
    } else {
      hide CategoryNo;
      assert IsNext(ranked, entity, Before(t0, music, k), music[k], pool);
      if !Represented(ranked, music[..k], c) {
        assert Settled(ranked, entity, Before(t0, music, mid), music[..mid], cap, c, pool);
        NotHeardEarlier(ranked, music, mid, k, c);
        BeforeGrows(t0, music, mid, k);
        NoneAboveStays(ranked, entity, Before(t0, music, mid), Before(t0, music, k), |ranked|, c, pool);
      }
    }
  }

  lemma NotHeardEarlier(ranked: seq<Story>, list: seq<nat>, k: nat, l: nat, c: Category)
    requires k <= l <= |list| && !Represented(ranked, list[..l], c)
    ensures !Represented(ranked, list[..k], c)
  {
    assert forall i :: 0 <= i < k ==> list[..l][i] == list[..k][i];
  }

  lemma MusicStep(
    ranked: seq<Story>, entity: bool, t0: set<nat>, music: seq<nat>, cap: nat, m1: nat, m2: nat, m3: nat, k: nat)
    requires MusicOk(ranked, entity, t0, music, cap, m1, m2, m3) && k < |music|
    ensures music[k] < |ranked| && Fits(ranked, entity, Before(t0, music, k), music[k])
    ensures PlainNews(ranked[music[k]])
    ensures forall j: nat ::
              j < |ranked| && PlainNews(ranked[j]) && PreferredOverMusic(ranked, music[..k], j, music[k]) ==>
                !Fits(ranked, entity, Before(t0, music, k), j)
  {
    hide Fits, Before, PoolOk, Wants, PlainNews;
    MusicIsFree(ranked, entity, t0, music, cap, m1, m2, m3);
    MusicFits(ranked, entity, t0, music, cap, m1, m2, m3, k);
    PoolOf(ranked[music[k]]);
    forall j: nat | j < |ranked| && PlainNews(ranked[j]) && PreferredOverMusic(ranked, music[..k], j, music[k])
      ensures !Fits(ranked, entity, Before(t0, music, k), j)
    {
      PoolOf(ranked[j]);
      if k < m2 {
        PoolStep(ranked, entity, t0, music, cap, 0, m1, m2, MusicMulti, k, j);
      } else if |ranked[j].outlets| >= 2 {
        MultiUsedUp(ranked, entity, t0, music, cap, m1, m2, m3, k);
        ExhaustedMeans(ranked, entity, Before(t0, music, k), j, MusicMulti);
      } else {
        PoolStep(ranked, entity, t0, music, cap, m2, m3, |music|, MusicSingle, k, j);
      }
    }
  }

  lemma MultiUsedUp(
    ranked: seq<Story>, entity: bool, t0: set<nat>, music: seq<nat>, cap: nat, m1: nat, m2: nat, m3: nat, k: nat)
    requires MusicOk(ranked, entity, t0, music, cap, m1, m2, m3) && m2 <= k < |music|
    ensures Exhausted(ranked, entity, Before(t0, music, k), MusicMulti)
  {
    hide Before, Exhausted, SpreadFrom, DrawnFrom, Settled;
    BeforeGrows(t0, music, m2, k);
    ExhaustedStays(ranked, entity, Before(t0, music, m2), Before(t0, music, k), MusicMulti);
  }

  lemma MusicFits(
    ranked: seq<Story>, entity: bool, t0: set<nat>, music: seq<nat>, cap: nat, m1: nat, m2: nat, m3: nat, k: nat)
    requires MusicOk(ranked, entity, t0, music, cap, m1, m2, m3) && k < |music|
    ensures music[k] < |ranked| && Fits(ranked, entity, Before(t0, music, k), music[k])
  {
    hide Fits, NoneBelow, NoneAbove, Wants, Settled, Represented, CategoryNo, EarlierUsedUp, Before;
    if k < m1 {
      assert SpreadAt(ranked, entity, t0, music, k, MusicMulti);
    } else if k < m2 {
      assert IsNext(ranked, entity, Before(t0, music, k), music[k], MusicMulti);
    } else if k < m3 {
      assert SpreadAt(ranked, entity, t0, music, k, MusicSingle);
    } else {
      assert IsNext(ranked, entity, Before(t0, music, k), music[k], MusicSingle);
    }
  }

  lemma OnAirWithAlso(head: seq<nat>, also: seq<nat>, list: seq<nat>, k: nat)
    requires k <= |list|
    ensures Before(AsSet(head) + AsSet(also), list, k) == AsSet(head + also + list[..k])
  {
  }

  /**
   * The six passes over the ranking amount to one rule: every pick of the rotator is the most preferred of all stories
   * fit for music that are not shut out by the headline, "also" and the picks before it.
   */
  lemma MusicIsGreedy(
    ranked: seq<Story>, entity: bool, alsoCount: nat, musicMin: nat, musicMax: nat, s: Slots, k: nat)
    requires RightSlots(ranked, entity, alsoCount, musicMin, musicMax, s) && k < |s.music|
    ensures IsNextMusic(ranked, entity, [0] + s.also + s.music[..k], s.music[..k], s.music[k])
  {
    hide Shut, Fits, AlsoOk, MusicOk, PreferredOverMusic, Before, PlainNews;
    var t0 := AsSet(HeadOf(s)) + AsSet(s.also);
    var m1, m2, m3 :| MusicOk(ranked, entity, t0, s.music, musicMax, m1, m2, m3);
    MusicStep(ranked, entity, t0, s.music, musicMax, m1, m2, m3, k);
    OnAirWithAlso([0], s.also, s.music, k);
    forall j: nat | j < |ranked|
      ensures Fits(ranked, entity, Before(t0, s.music, k), j) <==>
                !Shut(ranked, entity, [0] + s.also + s.music[..k], j)
    {
      FitsIff(ranked, entity, [0] + s.also + s.music[..k], j);
    }
  }

  // ---- and when a slot is short ---------------------------------------------------------------

  lemma ShortIsShut(ranked: seq<Story>, entity: bool, alsoCount: nat, musicMax: nat, s: Slots)
    requires ShortIsForced(ranked, entity, alsoCount, musicMax, s)
    requires s.headline == if ranked == [] then None else Some(0)
    ensures |s.also| <= alsoCount && |s.music| <= musicMax
    ensures |s.also| < alsoCount ==> s.music == [] && NoStory(ranked, entity, [0] + s.also)
    ensures |s.music| < musicMax ==> NoMusic(ranked, entity, [0] + s.also + s.music)
  {
    hide Shut, Fits, PlainNews, Wants;
    forall j: nat | j < |ranked|
      ensures |s.also| < alsoCount ==> Shut(ranked, entity, [0] + s.also, j)
      ensures |s.music| < musicMax && PlainNews(ranked[j]) ==> Shut(ranked, entity, [0] + s.also + s.music, j)
    {
      assert Picks(s) == [0] + s.also + s.music;
      assert s.music == [] ==> [0] + s.also + s.music == [0] + s.also;
      FitsIff(ranked, entity, [0] + s.also + s.music, j);
      AnyoneIsWanted(ranked[j]);
      PoolOf(ranked[j]);
    }
  }

  /** The eight passes of the picker amount to this one rule. */
  lemma PickedByPreference(ranked: seq<Story>, entity: bool, alsoCount: nat, musicMin: nat, musicMax: nat, s: Slots)
    requires RightSlots(ranked, entity, alsoCount, musicMin, musicMax, s)
    requires ShortIsForced(ranked, entity, alsoCount, musicMax, s)
    ensures GreedyHour(ranked, entity, alsoCount, musicMin, musicMax, s)
  {
    hide ShortIsForced, AlsoOk, MusicOk, NoStory, NoMusic, IsNextAlso, IsNextMusic;
    ShortIsShut(ranked, entity, alsoCount, musicMax, s);
    forall k | 0 <= k < |s.also|
      ensures IsNextAlso(ranked, entity, [0] + s.also[..k], s.also[k])
    {
      AlsoIsGreedy(ranked, entity, alsoCount, musicMin, musicMax, s, k);
    }
    forall k | 0 <= k < |s.music|
      ensures IsNextMusic(ranked, entity, [0] + s.also + s.music[..k], s.music[..k], s.music[k])
    {
      MusicIsGreedy(ranked, entity, alsoCount, musicMin, musicMax, s, k);
    }
  }

  // ---- the hour is determined -----------------------------------------------------------------

  lemma OneNextAlso(ranked: seq<Story>, entity: bool, on: seq<nat>, i: nat, j: nat)
    requires IsNextAlso(ranked, entity, on, i)
    ensures IsNextAlso(ranked, entity, on, j) ==> i == j
    ensures !NoStory(ranked, entity, on)
  {
    hide Shut;
  }

  lemma OneNextMusic(ranked: seq<Story>, entity: bool, on: seq<nat>, before: seq<nat>, i: nat, j: nat)
    requires IsNextMusic(ranked, entity, on, before, i)
    ensures IsNextMusic(ranked, entity, on, before, j) ==> i == j
    ensures !NoMusic(ranked, entity, on)
  {
    hide Shut, PlainNews, Heard;
  }

  lemma {:induction false} SameAlso(
    ranked: seq<Story>, entity: bool, alsoCount: nat, musicMin: nat, musicMax: nat, s: Slots, s': Slots, k: nat)
    requires GreedyHour(ranked, entity, alsoCount, musicMin, musicMax, s)
    requires GreedyHour(ranked, entity, alsoCount, musicMin, musicMax, s')
    requires k <= |s.also| && k <= |s'.also|
    ensures s.also[..k] == s'.also[..k]
    ensures k == |s.also| ==> k == |s'.also|
  {
    hide NoStory, NoMusic, IsNextAlso, IsNextMusic;
    if k > 0 {
      SameAlso(ranked, entity, alsoCount, musicMin, musicMax, s, s', k - 1);
      OneNextAlso(ranked, entity, [0] + s.also[..k - 1], s.also[k - 1], s'.also[k - 1]);
    }
    if k == |s.also| && k < |s'.also| {
      assert s.also[..k] == s.also;
      OneNextAlso(ranked, entity, [0] + s'.also[..k], s'.also[k], 0);
    }
  }

  lemma {:induction false} SameMusic(
    ranked: seq<Story>, entity: bool, alsoCount: nat, musicMin: nat, musicMax: nat, s: Slots, s': Slots, k: nat)
    requires GreedyHour(ranked, entity, alsoCount, musicMin, musicMax, s)
    requires GreedyHour(ranked, entity, alsoCount, musicMin, musicMax, s')
    requires s.also == s'.also && k <= |s.music| && k <= |s'.music|
    ensures s.music[..k] == s'.music[..k]
    ensures k == |s.music| ==> k == |s'.music|
  {
    hide NoStory, NoMusic, IsNextAlso, IsNextMusic;
    if k > 0 {
      SameMusic(ranked, entity, alsoCount, musicMin, musicMax, s, s', k - 1);
      OneNextMusic(
        ranked, entity, [0] + s.also + s.music[..k - 1], s.music[..k - 1], s.music[k - 1], s'.music[k - 1]);
    }
    if k == |s.music| && k < |s'.music| {
      assert s.music[..k] == s.music;
      OneNextMusic(ranked, entity, [0] + s'.also + s'.music[..k], s'.music[..k], s'.music[k], 0);
    }
  }

  /** And it leaves nothing open: a ranking has one hour, the one PickSlots returns. */
  lemma OneHour(ranked: seq<Story>, entity: bool, alsoCount: nat, musicMin: nat, musicMax: nat, s: Slots, s': Slots)
    requires GreedyHour(ranked, entity, alsoCount, musicMin, musicMax, s)
    requires GreedyHour(ranked, entity, alsoCount, musicMin, musicMax, s')
    ensures s == s'
  {
    var k := if |s.also| <= |s'.also| then |s.also| else |s'.also|;
    SameAlso(ranked, entity, alsoCount, musicMin, musicMax, s, s', k);
    SameAlso(ranked, entity, alsoCount, musicMin, musicMax, s', s, k);
    assert s.also == s.also[..k] && s'.also == s'.also[..k];
    var l := if |s.music| <= |s'.music| then |s.music| else |s'.music|;
    SameMusic(ranked, entity, alsoCount, musicMin, musicMax, s, s', l);
    SameMusic(ranked, entity, alsoCount, musicMin, musicMax, s', s, l);
    assert s.music == s.music[..l] && s'.music == s'.music[..l];
    hide IsNextAlso, IsNextMusic;
  }
}
