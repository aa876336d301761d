/** Stories ranked by who reports them (backend/src/radio/radioRank.js, rankStories). */
module Ranking {
  import opened Common
  import opened News
  import opened StableSort

  const SCORE_WINDOW_MS := 60 * 60_000

  predicate ThisHour(a: Article, now: int) {
    a.fetchedAt >= now - SCORE_WINDOW_MS
  }

  /** The distinct named outlets of this hour, in filing order. */
  function Outlets(g: seq<Article>, now: int): seq<string> {
    if g == [] then []
    else
      var before := Outlets(g[..|g| - 1], now);
      var a := g[|g| - 1];
      if ThisHour(a, now) && a.source != "" && a.source !in before then before + [a.source] else before
  }

  function Score(outlets: seq<string>, weight: string -> int): int {
    if outlets == [] then 0 else Score(outlets[..|outlets| - 1], weight) + weight(outlets[|outlets| - 1])
  }

  predicate LeadLe(x: Article, y: Article) {
    x.credibility > y.credibility || (x.credibility == y.credibility && x.fetchedAt >= y.fetchedAt)
  }

  predicate RankLe(x: Story, y: Story) {
    x.score > y.score || (x.score == y.score && x.last >= y.last)
  }

  function LatestFetch(g: seq<Article>): (t: int)
    requires g != []
    ensures exists i :: 0 <= i < |g| && g[i].fetchedAt == t
    ensures forall i :: 0 <= i < |g| ==> g[i].fetchedAt <= t
  {
    if |g| == 1 then g[0].fetchedAt
    else
      var t := LatestFetch(g[1..]);
      assert forall i :: 1 <= i < |g| ==> g[i] == g[1..][i - 1];
      if g[0].fetchedAt >= t then g[0].fetchedAt else t
  }

  predicate Reported(g: seq<Article>, now: int) {
    exists i :: 0 <= i < |g| && ThisHour(g[i], now)
  }

  function StoryOf(g: seq<Article>, now: int, weight: string -> int): Story
    requires g != []
  {
    var outlets := Outlets(g, now);
    Story(g, SortBy(LeadLe, g)[0], outlets, Score(outlets, weight), LatestFetch(g),
          exists i :: 0 <= i < |g| && g[i].sport, false)
  }

  function StoriesOf(groups: seq<seq<Article>>, now: int, weight: string -> int): seq<Story>
    requires forall i :: 0 <= i < |groups| ==> groups[i] != []
  {
    if groups == [] then []
    else
      var g := groups[|groups| - 1];
      StoriesOf(groups[..|groups| - 1], now, weight) + (if Reported(g, now) then [StoryOf(g, now, weight)] else [])
  }

  method RankStories(groups: seq<seq<Article>>, now: int, weight: string -> int) returns (stories: seq<Story>)
    requires forall i :: 0 <= i < |groups| ==> groups[i] != []
    ensures stories == SortBy(RankLe, StoriesOf(groups, now, weight))
  {
    stories := [];
    for k := 0 to |groups|
      invariant stories == StoriesOf(groups[..k], now, weight)
    {
      assert groups[..k + 1][..k] == groups[..k];
      if Reported(groups[k], now) {
        stories := stories + [StoryOf(groups[k], now, weight)];
      }
    }
    assert groups[..|groups|] == groups;
    stories := SortBy(RankLe, stories);
  }

  /** The lead of a story is one of its articles, and none is more credible, or as credible and newer. */
  lemma LeadIsBest(g: seq<Article>, now: int, weight: string -> int, a: Article)
    requires g != [] && a in g
    ensures var lead := StoryOf(g, now, weight).lead;
            && lead in g && a.credibility <= lead.credibility
            && (a.credibility == lead.credibility ==> a.fetchedAt <= lead.fetchedAt)
  {
    var sorted := SortBy(LeadLe, g);
    SortBySorted(LeadLe, g);
    SortByMembers(LeadLe, g, sorted[0]);
    SortByMembers(LeadLe, g, a);
    var i :| 0 <= i < |sorted| && sorted[i] == a;
  }

  lemma {:induction false} StoriesAreReported(groups: seq<seq<Article>>, now: int, weight: string -> int, s: Story)
    requires forall i :: 0 <= i < |groups| ==> groups[i] != []
    ensures s in StoriesOf(groups, now, weight)
       <==> exists i :: 0 <= i < |groups| && Reported(groups[i], now) && s == StoryOf(groups[i], now, weight)
  {
    hide StoryOf, Reported;
    if groups != [] {
      var n := |groups| - 1;
      StoriesAreReported(groups[..n], now, weight, s);
      assert forall i :: 0 <= i < n ==> groups[..n][i] == groups[i];
    }
  }

  /**
   * The ranking lists exactly the groups with an article of the last hour; scores never rise, and on equal scores the
   * newest story comes first.
   */
  lemma RankingIsOrdered(groups: seq<seq<Article>>, now: int, weight: string -> int, s: Story)
    requires forall i :: 0 <= i < |groups| ==> groups[i] != []
    ensures var ranked := SortBy(RankLe, StoriesOf(groups, now, weight));
            && (forall i, j :: 0 <= i < j < |ranked| ==>
                  && ranked[i].score >= ranked[j].score
                  && (ranked[i].score == ranked[j].score ==> ranked[i].last >= ranked[j].last))
            && (s in ranked <==>
                  exists g :: g in groups && (exists a :: a in g && a.fetchedAt >= now - 3_600_000)
                              && s == StoryOf(g, now, weight))
  {
    SortBySorted(RankLe, StoriesOf(groups, now, weight));
    SortByMembers(RankLe, StoriesOf(groups, now, weight), s);
    StoriesAreReported(groups, now, weight, s);
    forall g | g in groups
      ensures Reported(g, now) <==> exists a :: a in g && a.fetchedAt >= now - 3_600_000
    {
      ReportedIff(g, now);
    }
    hide StoryOf, Reported;
  }

  lemma ReportedIff(g: seq<Article>, now: int)
    ensures Reported(g, now) <==> exists a :: a in g && a.fetchedAt >= now - 3_600_000
  {
  }

  // ---- an outlet counts once ------------------------------------------------------------------

  /** Outlet `o` filed on this story within the hour. */
  ghost predicate Filed(g: seq<Article>, now: int, o: string) {
    exists i :: 0 <= i < |g| && ThisHour(g[i], now) && g[i].source == o
  }

  lemma {:induction false} OutletsAre(g: seq<Article>, now: int)
    ensures Distinct(Outlets(g, now))
    ensures forall o :: o in Outlets(g, now) <==> o != "" && Filed(g, now, o)
  {
    if g != [] {
      var n := |g| - 1;
      OutletsAre(g[..n], now);
      forall o
        ensures o in Outlets(g, now) <==> o != "" && Filed(g, now, o)
      {
        if i :| 0 <= i < |g| && ThisHour(g[i], now) && g[i].source == o {
          if i < n {
            assert g[..n][i] == g[i];
          }
        }
      }
    }
  }

  /** The score of a list of outlets is the sum of their weights. */
  lemma {:induction false} ScoreAdds(a: seq<string>, b: seq<string>, o: string, weight: string -> int)
    ensures Score([], weight) == 0 && Score([o], weight) == weight(o)
    ensures Score(a + b, weight) == Score(a, weight) + Score(b, weight)
  {
    if b == [] {
      assert a + b == a && [o][..0] == [];
    } else {
      var n := |b| - 1;
      ScoreAdds(a, b[..n], o, weight);
      assert (a + b)[..|a| + n] == a + b[..n];
    }
  }

  /**
   * What the fields of a story say about its group: all its articles; each outlet that filed in the last hour once;
   * the time of its latest article; and whether any article is about sport.
   */
  lemma StoryMeans(g: seq<Article>, now: int, weight: string -> int)
    requires g != []
    ensures var s := StoryOf(g, now, weight);
            && s.articles == g && s.score == Score(s.outlets, weight) && !s.sensitive && Distinct(s.outlets)
            && (forall o :: o in s.outlets <==>
                              o != "" && exists a :: a in g && a.source == o && a.fetchedAt >= now - 3_600_000)
            && (exists a :: a in g && a.fetchedAt == s.last) && (forall a :: a in g ==> a.fetchedAt <= s.last)
            && (s.sport <==> exists a :: a in g && a.sport)
  {
    OutletsAre(g, now);
    hide Distinct, Outlets, Score;
    forall o
      ensures Filed(g, now, o) <==> exists a :: a in g && a.source == o && a.fetchedAt >= now - 3_600_000
    {
    }
  }

  lemma {:induction false} ScoreWithout(b: seq<string>, k: nat, weight: string -> int)
    requires k < |b|
    ensures Score(b, weight) == Score(b[..k] + b[k + 1..], weight) + weight(b[k])
  {
    var n := |b| - 1;
    var rest := b[..k] + b[k + 1..];
    if k == n {
      assert rest == b[..n];
    } else {
      ScoreWithout(b[..n], k, weight);
      assert rest[..n - 1] == b[..n][..k] + b[..n][k + 1..];
      assert rest[n - 1] == b[n];
    }
  }

  lemma {:induction false} ScoreOfSet(a: seq<string>, b: seq<string>, weight: string -> int)
    requires Distinct(a) && Distinct(b) && forall o :: o in a <==> o in b
    ensures Score(a, weight) == Score(b, weight)
    decreases |a|
  {
    hide Distinct;
    if a == [] {
      EmptyOrInhabited(b);
    } else {
      var n := |a| - 1;
      assert a[n] in b;
      var k :| 0 <= k < |b| && b[k] == a[n];
      SameRest(a, b, k);
      ScoreWithout(b, k, weight);
      ScoreOfSet(a[..n], b[..k] + b[k + 1..], weight);
    }
  }

  lemma SameRest(a: seq<string>, b: seq<string>, k: nat)
    requires Distinct(a) && Distinct(b) && (forall o :: o in a <==> o in b)
    requires a != [] && k < |b| && b[k] == a[|a| - 1]
    ensures Distinct(a[..|a| - 1]) && Distinct(b[..k] + b[k + 1..])
    ensures var n, rest := |a| - 1, b[..k] + b[k + 1..];
            forall o :: o in a[..n] <==> o in rest
  {
    var n, rest := |a| - 1, b[..k] + b[k + 1..];
    forall o
      ensures o in a[..n] <==> o in a && o != a[n]
      ensures o in rest <==> o in b && o != b[k]
    {
      if o in b && o != b[k] {
        var m :| 0 <= m < |b| && b[m] == o;
        assert o == if m < k then rest[m] else rest[m - 1];
      }
    }
  }

  /**
   * No outlet can buy rank by flooding: a story's score depends only on the set of outlets that reported it this
   * hour, however many items each of them filed.
   */
  lemma FloodingDoesNotPay(g: seq<Article>, h: seq<Article>, now: int, weight: string -> int)
    requires g != [] && h != []
    requires forall o :: Filed(g, now, o) <==> Filed(h, now, o)
    ensures StoryOf(g, now, weight).score == StoryOf(h, now, weight).score
  {
    OutletsAre(g, now);
    OutletsAre(h, now);
    ScoreOfSet(Outlets(g, now), Outlets(h, now), weight);
  }
}
