/** What the grouping means for the programme: it is blind to the input order, and stories never collide. */
module GroupingLaws {
  import opened Common
  import opened News
  import opened Grouping

  /** `f` renames the positions of `a` to those of `b`, one to one, keeping every article. */
  ghost predicate Renames(a: seq<Article>, b: seq<Article>, f: seq<nat>) {
    && |f| == |a| == |b|
    && (forall k :: 0 <= k < |a| ==> f[k] < |b| && a[k] == b[f[k]])
    && (forall k, l :: 0 <= k < l < |a| ==> f[k] != f[l])
  }

  lemma LinkedSymmetric(x: Article, y: Article, entity: bool)
    ensures Linked(x, y, entity) <==> Linked(y, x, entity)
  {
    if x.vec.Some? && y.vec.Some? {
      DotSymmetric(x.vec.value, y.vec.value, DIMS);
    }
    JaccardSymmetric(x.tok, y.tok);
    SameKeysSymmetric(x.keys, y.keys);
  }

  lemma EdgeRenamed(a: seq<Article>, b: seq<Article>, f: seq<nat>, entity: bool, i: nat, j: nat)
    requires Renames(a, b, f) && i < |a| && j < |a| && Edge(a, entity, i, j)
    ensures Edge(b, entity, f[i], f[j])
  {
    LinkedSymmetric(b[f[i]], b[f[j]], entity);
  }

  lemma ConnectedRenamed(a: seq<Article>, b: seq<Article>, f: seq<nat>, entity: bool, i: nat, j: nat)
    requires Renames(a, b, f) && i < |a| && j < |a| && Connected(a, entity, i, j)
    ensures Connected(b, entity, f[i], f[j])
  {
    var p :| ChainBetween(a, entity, p, i, j);
    var q: seq<nat> := seq(|p|, k requires 0 <= k < |p| => f[p[k]]);
    forall k | 0 <= k < |q| - 1
      ensures Edge(b, entity, q[k], q[k + 1])
    {
      assert Edge(a, entity, p[k], p[k + 1]);
      EdgeRenamed(a, b, f, entity, p[k], p[k + 1]);
    }
    assert ChainBetween(b, entity, q, f[i], f[j]);
  }

  /** An injection of a finite set of positions into itself hits every position, so it has an inverse. */
  lemma {:induction false} Inverse(a: seq<Article>, b: seq<Article>, f: seq<nat>) returns (g: seq<nat>)
    requires Renames(a, b, f)
    ensures Renames(b, a, g)
    ensures forall k :: 0 <= k < |a| ==> g[f[k]] == k
  {
    forall y: nat | y < |b|
      ensures Preimage(f, y) < |a| && f[Preimage(f, y)] == y
    {
      Onto(f, |b|, y);
    }
    g := seq(|b|, y requires 0 <= y < |b| => Preimage(f, y));
    forall k | 0 <= k < |a|
      ensures g[f[k]] == k
    {
      assert f[g[f[k]]] == f[k];
    }
    forall y, z | 0 <= y < z < |b|
      ensures g[y] != g[z]
    {
      assert f[g[y]] == y && f[g[z]] == z;
    }
  }

  ghost function Preimage(f: seq<nat>, y: nat): (k: nat)
    ensures y in f ==> k < |f| && f[k] == y
  {
    if y in f then
      var x: nat :| x < |f| && f[x] == y; x
    else 0
  }

  /** `n` different positions below `n` are all of them. */
  lemma Onto(f: seq<nat>, n: nat, y: nat)
    requires |f| == n && y < n
    requires forall k :: 0 <= k < n ==> f[k] < n
    requires forall k, l :: 0 <= k < l < n ==> f[k] != f[l]
    ensures y in f
  {
    var image := set k | 0 <= k < n :: f[k];
    DistinctImage(f, n);
    if y !in f {
      SubsetSize(image, Range(0, n) - {y});
    }
  }

  lemma {:induction false} DistinctImage(f: seq<nat>, n: nat)
    requires n <= |f| && forall k, l :: 0 <= k < l < |f| ==> f[k] != f[l]
    ensures |set k | 0 <= k < n :: f[k]| == n
  {
    if n > 0 {
      DistinctImage(f, n - 1);
      var smaller := set k | 0 <= k < n - 1 :: f[k];
      assert (set k | 0 <= k < n :: f[k]) == smaller + {f[n - 1]};
    }
  }

  /**
   * The stories do not depend on the order the articles arrive in: shuffle the input, group it again, and any
   * two articles are together after exactly when they were together before.
   */
  lemma OrderDoesNotMatter(
    a: seq<Article>, b: seq<Article>, f: seq<nat>, entity: bool, ga: seq<seq<nat>>, gb: seq<seq<nat>>, i: nat, j: nat)
    requires Renames(a, b, f)
    requires IsGrouping(a, entity, ga) && IsGrouping(b, entity, gb)
    requires i < |a| && j < |a|
    ensures Together(ga, i, j) <==> Together(gb, f[i], f[j])
  {
    if Connected(a, entity, i, j) {
      ConnectedRenamed(a, b, f, entity, i, j);
    }
    if Connected(b, entity, f[i], f[j]) {
      var g := Inverse(a, b, f);
      ConnectedRenamed(b, a, g, entity, f[i], f[j]);
    }
  }

  /** The pair test of the grouping loop is the on-air duplicate test, but for the time window. */
  lemma LinkedIsSameArticle(x: Article, y: Article, entity: bool)
    ensures Linked(x, y, entity) <==> WithinWindow(x, y) && SameArticle(x, y, entity)
  {
  }

  /**
   * The pair test spelled out: fetched within ninety minutes of each other, and either close in embedding, or (when
   * one has none) sharing half the words of both titles, or sharing three key terms, 60% of the smaller title's, with
   * a name among those of both.
   */
  lemma LinkedMeans(x: Article, y: Article, entity: bool)
    ensures Linked(x, y, entity) <==>
              && x.fetchedAt <= y.fetchedAt + 5_400_000 && y.fetchedAt <= x.fetchedAt + 5_400_000
              && (|| (x.vec.Some? && y.vec.Some? && Dot(x.vec.value, y.vec.value, |x.vec.value|) >= 0.82)
                  || ((x.vec.None? || y.vec.None?) && x.tok != {} && y.tok != {}
                      && 2 * |x.tok * y.tok| >= |x.tok + y.tok|)
                  || (&& entity && |x.keys.all * y.keys.all| >= 3 && x.keys.named * y.keys.named != {}
                      && (|| 5 * |x.keys.all * y.keys.all| >= 3 * |x.keys.all|
                          || 5 * |x.keys.all * y.keys.all| >= 3 * |y.keys.all|)))
  {
    var a, b := x.keys.all, y.keys.all;
    assert a * b == b * a;
    SubsetSize(a * b, a);
    SubsetSize(a * b, b);
    if t :| t in x.keys.named && t in y.keys.named {
      assert t in x.keys.named * y.keys.named;
    }
  }

  /**
   * Candidates of one build are fetched within one window of each other. Then articles of different stories are
   * never the same story, whichever is asked about first, so the duplicate check that guards the air is idle.
   */
  lemma StoriesNeverCollide(items: seq<Article>, entity: bool, groups: seq<seq<nat>>, i: nat, j: nat)
    requires IsGrouping(items, entity, groups)
    requires forall x, y :: 0 <= x < |items| && 0 <= y < |items| ==> WithinWindow(items[x], items[y])
    requires i < |items| && j < |items| && !Together(groups, i, j)
    ensures !SameArticle(items[i], items[j], entity) && !SameArticle(items[j], items[i], entity)
  {
    if i == j {
      ConnectedSelf(items, entity, i);
      assert false;
    }
    LinkedSymmetric(items[i], items[j], entity);
    LinkedIsSameArticle(items[i], items[j], entity);
    LinkedIsSameArticle(items[j], items[i], entity);
    if Edge(items, entity, i, j) {
      assert ChainBetween(items, entity, [i, j], i, j);
    }
  }
}
