/**
 * Articles as the radio sees them, and when two of them tell the same story
 * (backend/src/radio/radioRank.js). What the regular expressions and the headline cleaner say about a title
 * is carried in fields; the tests built on top of them are written out.
 */
module News {
  import opened Common

  const DIMS := 768

  type Vec = v: seq<real> | |v| == DIMS witness seq(DIMS, _ => 0.0)

  /** Stemmed content words of a title, and those capitalised past its first word. */
  datatype RawKeys = RawKeys(all: set<string>, named: set<string>)

  /** The key terms keyTerms() returns: a name is also a content word. */
  type Keys = k: RawKeys | k.named <= k.all witness RawKeys({}, {})

  datatype Category = World | Business | Tech | Politics | Health | Science

  const HEADLINE_MAX := 90

  /** A line that fits the screen. */
  type Line = l: string | |l| <= HEADLINE_MAX witness ""

  datatype Article = Article(
    id: string,
    source: string,
    fetchedAt: int,
    credibility: int,
    tok: set<string>,          // titleTokens(title)
    keys: Keys,                // keyTerms(title)
    vec: Option<Vec>,          // the stored embedding, when this build groups by cosine
    sport: bool,               // isSport
    topic: Option<string>,     // topicOf, from the title
    category: Category,        // displayCategory
    notHardNews: bool,         // aggregator, entertainment or academic
    pakistan: bool,            // hasPakistanSignal
    tragic: bool,              // the title is not blank and isRadioSensitive of it
    line: Line)                // its cleaned title fitted to the screen, "" when it does not fit whole

  const ENTITY_MIN_SHARED := 3
  const GROUP_WINDOW_MS := 90 * 60_000

  /** jaccard(a, b) >= 0.5 */
  predicate JaccardMin(a: set<string>, b: set<string>) {
    a != {} && b != {} && 2 * |a * b| >= |a| + |b| - |a * b|
  }

  function Dot(a: Vec, b: Vec, n: nat): real
    requires n <= DIMS
  {
    if n == 0 then 0.0 else Dot(a, b, n - 1) + a[n - 1] * b[n - 1]
  }

  /** cosine(a, b) >= 0.82 on unit vectors */
  predicate CosineMin(a: Vec, b: Vec) {
    Dot(a, b, DIMS) >= 0.82
  }

  /**
   * At least 60% of the smaller title's key terms, and at least three, are shared, one of them a name in both.
   * On equal sizes `a` plays the smaller title.
   */
  predicate SameKeys(a: RawKeys, b: RawKeys) {
    var small := if |a.all| <= |b.all| then a.all else b.all;
    var big := if |a.all| <= |b.all| then b.all else a.all;
    var shared := |small * big|;
    && |small| >= ENTITY_MIN_SHARED
    && shared >= ENTITY_MIN_SHARED && 5 * shared >= 3 * |small|
    && exists t :: t in a.named && t in b.named && t in small
  }

  /** Two articles tell the same story; `entity` is the switch of the key-term rule. */
  predicate SameArticle(x: Article, y: Article, entity: bool) {
    if x.vec.Some? && y.vec.Some? && CosineMin(x.vec.value, y.vec.value) then true
    else if (x.vec.None? || y.vec.None?) && JaccardMin(x.tok, y.tok) then true
    else entity && SameKeys(x.keys, y.keys)
  }

  lemma {:induction false} DotSymmetric(a: Vec, b: Vec, n: nat)
    requires n <= DIMS
    ensures Dot(a, b, n) == Dot(b, a, n)
  {
    if n > 0 {
      DotSymmetric(a, b, n - 1);
    }
  }

  lemma JaccardSymmetric(a: set<string>, b: set<string>)
    ensures JaccardMin(a, b) <==> JaccardMin(b, a)
  {
    assert a * b == b * a;
  }

  /** The key-term rule does not depend on which title comes first, even when both have as many terms. */
  lemma SameKeysSymmetric(a: Keys, b: Keys)
    ensures SameKeys(a, b) <==> SameKeys(b, a)
  {
    assert a.all * b.all == b.all * a.all;
    assert forall t :: t in a.named && t in b.named ==> t in a.all && t in b.all;
  }

  /** It would, could a name be missing from the content words: the order breaks the tie between equal sizes. */
  lemma SameKeysNeedsNamesAmongAll() returns (a: Keys, b: RawKeys)
    ensures !(b.named <= b.all)
    ensures SameKeys(a, b) && !SameKeys(b, a)
  {
    a := RawKeys({"w", "x", "y", "z"}, {"z"});
    b := RawKeys({"w", "x", "y", "v"}, {"z"});
    assert a.all * b.all == {"w", "x", "y"};
    assert b.all * a.all == {"w", "x", "y"};
    assert "z" in a.named && "z" in b.named && "z" in a.all;
  }

  lemma SameArticleSymmetric(x: Article, y: Article, entity: bool)
    ensures SameArticle(x, y, entity) <==> SameArticle(y, x, entity)
  {
    if x.vec.Some? && y.vec.Some? {
      DotSymmetric(x.vec.value, y.vec.value, DIMS);
    }
    JaccardSymmetric(x.tok, y.tok);
    SameKeysSymmetric(x.keys, y.keys);
  }

  // ---- stories --------------------------------------------------------------------------------

  /** A ranked story; `sensitive` may be raised after ranking. */
  datatype Story = Story(
    articles: seq<Article>, lead: Article, outlets: seq<string>, score: int, last: int, sport: bool, sensitive: bool)

  function ArticlesOf(s: Story): (r: seq<Article>)
    ensures r != []
  {
    if s.articles != [] then s.articles else [s.lead]
  }

  /** Two stories are the same if any article of one tells the same story as any article of the other. */
  predicate SameStory(a: Story, b: Story, entity: bool) {
    exists i, j :: 0 <= i < |ArticlesOf(a)| && 0 <= j < |ArticlesOf(b)|
                   && SameArticle(ArticlesOf(a)[i], ArticlesOf(b)[j], entity)
  }

  lemma SameStorySymmetric(a: Story, b: Story, entity: bool)
    ensures SameStory(a, b, entity) <==> SameStory(b, a, entity)
  {
    if i, j :| 0 <= i < |ArticlesOf(a)| && 0 <= j < |ArticlesOf(b)|
               && SameArticle(ArticlesOf(a)[i], ArticlesOf(b)[j], entity) {
      SameArticleSymmetric(ArticlesOf(a)[i], ArticlesOf(b)[j], entity);
    }
    if i, j :| 0 <= i < |ArticlesOf(b)| && 0 <= j < |ArticlesOf(a)|
               && SameArticle(ArticlesOf(b)[i], ArticlesOf(a)[j], entity) {
      SameArticleSymmetric(ArticlesOf(b)[i], ArticlesOf(a)[j], entity);
    }
  }
}
