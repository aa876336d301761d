/**
 * Single-link grouping of articles into stories (backend/src/radio/radioRank.js, groupArticles): union-find
 * with path compression over a parent array. Articles are named by their position in the input.
 */
module Grouping {
  import opened Common
  import opened News

  predicate WithinWindow(x: Article, y: Article) {
    -GROUP_WINDOW_MS <= x.fetchedAt - y.fetchedAt <= GROUP_WINDOW_MS
  }

  /** The pair test of the grouping loop. */
  predicate Linked(x: Article, y: Article, entity: bool) {
    && WithinWindow(x, y)
    && ((if x.vec.Some? && y.vec.Some? then CosineMin(x.vec.value, y.vec.value) else JaccardMin(x.tok, y.tok))
        || (entity && SameKeys(x.keys, y.keys)))
  }

  /** Positions `i` and `j` are linked, tested as the loop does: the earlier one first. */
  predicate Edge(items: seq<Article>, entity: bool, i: nat, j: nat)
    requires i < |items| && j < |items|
  {
    (i < j && Linked(items[i], items[j], entity)) || (j < i && Linked(items[j], items[i], entity))
  }

  // ---- connected components -------------------------------------------------------------------

  ghost predicate Chain(items: seq<Article>, entity: bool, p: seq<nat>) {
    && p != [] && (forall k :: 0 <= k < |p| ==> p[k] < |items|)
    && forall k :: 0 <= k < |p| - 1 ==> Edge(items, entity, p[k], p[k + 1])
  }

  ghost predicate ChainBetween(items: seq<Article>, entity: bool, p: seq<nat>, i: nat, j: nat) {
    Chain(items, entity, p) && p[0] == i && p[|p| - 1] == j
  }

  /** A chain of linked pairs joins `i` and `j`. */
  ghost predicate Connected(items: seq<Article>, entity: bool, i: nat, j: nat) {
    exists p: seq<nat> :: ChainBetween(items, entity, p, i, j)
  }

  lemma ConnectedSelf(items: seq<Article>, entity: bool, i: nat)
    requires i < |items|
    ensures Connected(items, entity, i, i)
  {
    assert ChainBetween(items, entity, [i], i, i);
  }

  lemma ConnectedFlip(items: seq<Article>, entity: bool, i: nat, j: nat)
    requires Connected(items, entity, i, j)
    ensures Connected(items, entity, j, i)
  {
    var p :| ChainBetween(items, entity, p, i, j);
    var q: seq<nat> := seq(|p|, k requires 0 <= k < |p| => p[|p| - 1 - k]);
    forall k | 0 <= k < |q| - 1
      ensures Edge(items, entity, q[k], q[k + 1])
    {
      assert Edge(items, entity, p[|p| - 2 - k], p[|p| - 2 - k + 1]);
    }
    assert ChainBetween(items, entity, q, j, i);
  }

  lemma ConnectedJoin(items: seq<Article>, entity: bool, i: nat, j: nat, k: nat, l: nat)
    requires Connected(items, entity, i, j) && Connected(items, entity, k, l)
    requires j < |items| && k < |items| && Edge(items, entity, j, k)
    ensures Connected(items, entity, i, l)
  {
    var p :| ChainBetween(items, entity, p, i, j);
    var q :| ChainBetween(items, entity, q, k, l);
    var r := p + q;
    forall m | 0 <= m < |r| - 1
      ensures Edge(items, entity, r[m], r[m + 1])
    {
      if m < |p| - 1 {
        assert Edge(items, entity, p[m], p[m + 1]);
      } else if m >= |p| {
        assert Edge(items, entity, q[m - |p|], q[m - |p| + 1]);
      }
    }
    assert ChainBetween(items, entity, r, i, l);
  }

  // ---- the parent array -----------------------------------------------------------------------

  /**
   * Node `i` hangs in the tree of its root, and `rank` strictly falls towards the root: that is why following
   * parents ends.
   */
  ghost predicate NodeOk(p: seq<nat>, root: seq<nat>, rank: seq<nat>, i: nat)
    requires |p| == |root| == |rank| && i < |p|
  {
    && p[i] < |p| && root[i] < |p|
    && root[root[i]] == root[i] && root[p[i]] == root[i]
    && (p[i] == i <==> root[i] == i)
    && (p[i] != i ==> rank[p[i]] < rank[i] && rank[root[i]] < rank[i])
  }

  /** `p` is a forest whose trees are the classes of `root`. */
  ghost predicate Forest(p: seq<nat>, root: seq<nat>, rank: seq<nat>) {
    && |p| == |root| == |rank|
    && forall i :: 0 <= i < |p| ==> NodeOk(p, root, rank, i)
  }

  /** The root of `i`'s tree; every node passed on the way is re-hung under it. */
  method Find(parent: array<nat>, i: nat, ghost root: seq<nat>, ghost rank: seq<nat>) returns (r: nat)
    requires Forest(parent[..], root, rank) && i < parent.Length && |root| == |rank| == parent.Length
    modifies parent
    ensures Forest(parent[..], root, rank)
    ensures r == root[i]
    decreases rank[i]
  {
    hide Forest;
    ForestAt(parent[..], root, rank, i);
    if parent[i] == i {
      return i;
    }
    r := Find(parent, parent[i], root, rank);
    ghost var before := parent[..];
    Compress(before, root, rank, i);
    parent[i] := r;
    assert parent[..] == before[i := r];
  }

  lemma ForestAt(p: seq<nat>, root: seq<nat>, rank: seq<nat>, i: nat)
    requires Forest(p, root, rank) && i < |p|
    ensures |p| == |root| == |rank|
    ensures p[i] < |p| && root[i] < |p| && root[p[i]] == root[i] && (p[i] == i <==> root[i] == i)
    ensures p[i] != i ==> rank[p[i]] < rank[i]
  {
    assert NodeOk(p, root, rank, i);
  }

  lemma Compress(p: seq<nat>, root: seq<nat>, rank: seq<nat>, i: nat)
    requires Forest(p, root, rank) && i < |p| && root[i] != i
    ensures Forest(p[i := root[i]], root, rank)
  {
    var p' := p[i := root[i]];
    forall k | 0 <= k < |p'|
      ensures NodeOk(p', root, rank, k)
    {
      assert NodeOk(p, root, rank, k) && NodeOk(p, root, rank, i);
    }
  }

  ghost function MergedRoot(root: seq<nat>, ri: nat, rj: nat): (r: seq<nat>)
    ensures |r| == |root|
  {
    seq(|root|, k requires 0 <= k < |root| => if root[k] == ri then rj else root[k])
  }

  ghost function LiftedRank(root: seq<nat>, rank: seq<nat>, ri: nat, rj: nat): (r: seq<nat>)
    requires |root| == |rank| && rj < |rank|
    ensures |r| == |rank|
  {
    seq(|rank|, k requires 0 <= k < |rank| => if root[k] == ri then rank[k] + rank[rj] + 1 else rank[k])
  }

  /** Hanging one root under another merges exactly their two classes. */
  lemma Hang(p: seq<nat>, root: seq<nat>, rank: seq<nat>, ri: nat, rj: nat)
    requires Forest(p, root, rank) && ri < |p| && rj < |p| && root[ri] == ri && root[rj] == rj && ri != rj
    ensures Forest(p[ri := rj], MergedRoot(root, ri, rj), LiftedRank(root, rank, ri, rj))
  {
    var p', root', rank' := p[ri := rj], MergedRoot(root, ri, rj), LiftedRank(root, rank, ri, rj);
    forall k | 0 <= k < |p'|
      ensures NodeOk(p', root', rank', k)
    {
      assert NodeOk(p, root, rank, k) && NodeOk(p, root, rank, ri) && NodeOk(p, root, rank, rj);
    }
  }

  // ---- grouping -------------------------------------------------------------------------------

  /** Pairs the double loop has reached before `(i, j)`. */
  ghost predicate Seen(x: nat, y: nat, i: nat, j: nat) {
    x < y && (x < i || (x == i && y < j))
  }

  /** `root` names a class per article: joined articles are connected, and linked pairs already seen are joined. */
  ghost predicate Progress(items: seq<Article>, entity: bool, root: seq<nat>, i: nat, j: nat) {
    && |root| == |items|
    && (forall x, y :: 0 <= x < |items| && 0 <= y < |items| && root[x] == root[y] ==> Connected(items, entity, x, y))
    && (forall x, y :: 0 <= x < y < |items| && Seen(x, y, i, j) && Edge(items, entity, x, y) ==> root[x] == root[y])
  }

  lemma ProgressStart(items: seq<Article>, entity: bool, root: seq<nat>)
    requires |root| == |items| && forall k :: 0 <= k < |root| ==> root[k] == k
    ensures Progress(items, entity, root, 0, 1)
  {
    forall x, y | 0 <= x < |items| && 0 <= y < |items| && root[x] == root[y]
      ensures Connected(items, entity, x, y)
    {
      ConnectedSelf(items, entity, x);
    }
  }

  lemma ProgressSkips(items: seq<Article>, entity: bool, root: seq<nat>, i: nat, j: nat)
    requires i < j < |items| && Progress(items, entity, root, i, j)
    requires root[i] == root[j] || !Edge(items, entity, i, j)
    ensures Progress(items, entity, root, i, j + 1)
  {
  }

  lemma ProgressMerges(items: seq<Article>, entity: bool, root: seq<nat>, i: nat, j: nat)
    requires i < j < |items| && Progress(items, entity, root, i, j) && Edge(items, entity, i, j)
    ensures Progress(items, entity, MergedRoot(root, root[i], root[j]), i, j + 1)
  {
    var ri, rj := root[i], root[j];
    var root' := MergedRoot(root, ri, rj);
    forall x, y | 0 <= x < |items| && 0 <= y < |items| && root'[x] == root'[y]
      ensures Connected(items, entity, x, y)
    {
      if root[x] != root[y] {
        if root[x] == ri {
          ConnectedJoin(items, entity, x, i, j, y);
        } else {
          ConnectedJoin(items, entity, y, i, j, x);
          ConnectedFlip(items, entity, y, x);
        }
      }
    }
  }

  /** When every pair has been seen, the classes are the connected components. */
  lemma {:induction false} ComponentsReached(items: seq<Article>, entity: bool, root: seq<nat>, p: seq<nat>)
    requires Progress(items, entity, root, |items|, |items|)
    requires Chain(items, entity, p)
    ensures root[p[0]] == root[p[|p| - 1]]
  {
    if |p| > 1 {
      var q := p[1..];
      forall k | 0 <= k < |q| - 1
        ensures Edge(items, entity, q[k], q[k + 1])
      {
        assert Edge(items, entity, p[k + 1], p[k + 2]);
      }
      ComponentsReached(items, entity, root, q);
      assert Edge(items, entity, p[0], p[1]);
      assert Edge(items, entity, p[1], p[0]);
    }
  }

  lemma ClassesAreComponents(items: seq<Article>, entity: bool, root: seq<nat>, i: nat, j: nat)
    requires Progress(items, entity, root, |items|, |items|)
    requires i < |items| && j < |items|
    ensures root[i] == root[j] <==> Connected(items, entity, i, j)
  {
    if Connected(items, entity, i, j) {
      var p :| ChainBetween(items, entity, p, i, j);
      ComponentsReached(items, entity, root, p);
    }
  }

  /** `parent[find(i)] = find(j)` on two different trees. */
  method Join(parent: array<nat>, i: nat, j: nat, ghost root: seq<nat>, ghost rank: seq<nat>)
    returns (ghost root': seq<nat>, ghost rank': seq<nat>)
    requires Forest(parent[..], root, rank) && |root| == |rank| == parent.Length
    requires i < parent.Length && j < parent.Length && root[i] != root[j]
    modifies parent
    ensures root' == MergedRoot(root, root[i], root[j]) && |rank'| == parent.Length
    ensures Forest(parent[..], root', rank')
  {
    hide Forest;
    var ri := Find(parent, i, root, rank);
    var rj := Find(parent, j, root, rank);
    RootsStand(parent[..], root, rank, i);
    RootsStand(parent[..], root, rank, j);
    Hang(parent[..], root, rank, ri, rj);
    ghost var before := parent[..];
    parent[ri] := rj;
    assert parent[..] == before[ri := rj];
    root', rank' := MergedRoot(root, ri, rj), LiftedRank(root, rank, ri, rj);
  }

  /** One pair of the double loop. */
  method Visit(
    items: seq<Article>, entity: bool, parent: array<nat>, i: nat, j: nat, ghost root: seq<nat>, ghost rank: seq<nat>)
    returns (ghost root': seq<nat>, ghost rank': seq<nat>)
    requires i < j < |items| == parent.Length && |root| == |rank| == parent.Length
    requires Forest(parent[..], root, rank) && Progress(items, entity, root, i, j)
    modifies parent
    ensures |root'| == |rank'| == parent.Length
    ensures Forest(parent[..], root', rank') && Progress(items, entity, root', i, j + 1)
  {
    hide Forest, Progress, Linked;
    root', rank' := root, rank;
    var fi := Find(parent, i, root, rank);
    var fj := Find(parent, j, root, rank);
    if fi != fj && Linked(items[i], items[j], entity) {
      root', rank' := Join(parent, i, j, root, rank);
      ProgressMerges(items, entity, root, i, j);
    } else {
      ProgressSkips(items, entity, root, i, j);
    }
  }

  /** The union-find loop: one pass over all pairs. */
  method Unite(items: seq<Article>, entity: bool, parent: array<nat>)
    returns (ghost root: seq<nat>, ghost rank: seq<nat>)
    requires parent.Length == |items| && forall k :: 0 <= k < |items| ==> parent[k] == k
    modifies parent
    ensures Forest(parent[..], root, rank) && |rank| == |items|
    ensures Progress(items, entity, root, |items|, |items|)
  {
    root := seq(|items|, k => k);
    rank := seq(|items|, k => 0);
    ProgressStart(items, entity, root);
    hide Forest, Progress, Linked;
    assert Forest(parent[..], root, rank) by { Identity(parent[..], root, rank); }
    for i := 0 to |items|
      invariant |root| == |rank| == |items|
      invariant Forest(parent[..], root, rank)
      invariant Progress(items, entity, root, i, i + 1)
    {
      for j := i + 1 to |items|
        invariant |root| == |rank| == |items|
        invariant Forest(parent[..], root, rank)
        invariant Progress(items, entity, root, i, j)
      {
        root, rank := Visit(items, entity, parent, i, j, root, rank);
      }
      NextRow(items, entity, root, i);
    }
    LastRow(items, entity, root);
  }

  lemma Identity(p: seq<nat>, root: seq<nat>, rank: seq<nat>)
    requires |p| == |root| == |rank| && forall k :: 0 <= k < |p| ==> p[k] == k && root[k] == k
    ensures Forest(p, root, rank)
  {
  }

  lemma RootsStand(p: seq<nat>, root: seq<nat>, rank: seq<nat>, i: nat)
    requires Forest(p, root, rank) && i < |p|
    ensures |root| == |p| && root[i] < |p| && root[root[i]] == root[i]
  {
    assert NodeOk(p, root, rank, i);
  }

  lemma NextRow(items: seq<Article>, entity: bool, root: seq<nat>, i: nat)
    requires i < |items| && Progress(items, entity, root, i, |items|)
    ensures Progress(items, entity, root, i + 1, i + 2)
  {
  }

  lemma LastRow(items: seq<Article>, entity: bool, root: seq<nat>)
    requires Progress(items, entity, root, |items|, |items| + 1)
    ensures Progress(items, entity, root, |items|, |items|)
  {
  }

  // ---- collecting the groups ------------------------------------------------------------------

  ghost function Members(root: seq<nat>, r: nat, n: nat): seq<nat>
    requires n <= |root|
  {
    if n == 0 then [] else Members(root, r, n - 1) + (if root[n - 1] == r then [n - 1] else [])
  }

  lemma {:induction false} MembersAre(root: seq<nat>, r: nat, n: nat)
    requires n <= |root|
    ensures forall x: nat :: x in Members(root, r, n) <==> x < n && root[x] == r
    ensures forall i, j :: 0 <= i < j < |Members(root, r, n)| ==> Members(root, r, n)[i] < Members(root, r, n)[j]
  {
    if n > 0 {
      MembersAre(root, r, n - 1);
      var m := Members(root, r, n - 1);
      assert forall i :: 0 <= i < |m| ==> m[i] in m;
    }
  }

  /** The groups collected from the first `n` articles: one per root met so far, in the order they were met. */
  ghost predicate Collected(root: seq<nat>, n: nat, groups: seq<seq<nat>>, index: map<nat, nat>, keys: seq<nat>) {
    && n <= |root| && |keys| == |groups|
    && (forall g :: 0 <= g < |groups| ==>
          && groups[g] == Members(root, keys[g], n) && groups[g] != [] && groups[g][0] < n
          && keys[g] in index && index[keys[g]] == g)
    && (forall r :: r in index ==> index[r] < |groups| && keys[index[r]] == r)
    && (forall k :: 0 <= k < n ==> root[k] in index)
    && (forall g, h :: 0 <= g < h < |groups| ==> groups[g][0] < groups[h][0])
  }

  lemma CollectNew(root: seq<nat>, n: nat, groups: seq<seq<nat>>, index: map<nat, nat>, keys: seq<nat>)
    requires n < |root| && Collected(root, n, groups, index, keys) && root[n] !in index
    ensures Collected(root, n + 1, groups + [[n]], index[root[n] := |groups|], keys + [root[n]])
  {
    var newGroups, newIndex, newKeys := groups + [[n]], index[root[n] := |groups|], keys + [root[n]];
    NoMembersYet(root, n, groups, index, keys);
    forall g | 0 <= g < |newGroups|
      ensures newGroups[g] == Members(root, newKeys[g], n + 1) && newGroups[g] != [] && newGroups[g][0] < n + 1
      ensures newKeys[g] in newIndex && newIndex[newKeys[g]] == g
    {
      if g < |groups| {
        assert keys[g] != root[n];
        assert Members(root, keys[g], n + 1) == Members(root, keys[g], n);
      }
    }
  }

  lemma NoMembersYet(root: seq<nat>, n: nat, groups: seq<seq<nat>>, index: map<nat, nat>, keys: seq<nat>)
    requires n < |root| && Collected(root, n, groups, index, keys) && root[n] !in index
    ensures Members(root, root[n], n) == []
    ensures Members(root, root[n], n + 1) == [n]
  {
    MembersAre(root, root[n], n);
    EmptyOrInhabited(Members(root, root[n], n));
  }

  lemma CollectMore(root: seq<nat>, n: nat, groups: seq<seq<nat>>, index: map<nat, nat>, keys: seq<nat>)
    requires n < |root| && Collected(root, n, groups, index, keys) && root[n] in index
    ensures var g := index[root[n]];
            g < |groups| && Collected(root, n + 1, groups[g := groups[g] + [n]], index, keys)
  {
    var g := index[root[n]];
    assert forall h :: 0 <= h < |groups| && h != g ==> keys[h] != root[n];
  }

  /** Put article `i`, whose root is `r`, into its group, opening the group at its first member. */
  method Add(groups: seq<seq<nat>>, slot: map<nat, nat>, i: nat, r: nat, ghost root: seq<nat>, ghost keys: seq<nat>)
    returns (groups': seq<seq<nat>>, slot': map<nat, nat>, ghost keys': seq<nat>)
    requires i < |root| && r == root[i] && Collected(root, i, groups, slot, keys)
    ensures Collected(root, i + 1, groups', slot', keys')
  {
    hide Members;
    if r !in slot {
      CollectNew(root, i, groups, slot, keys);
      groups', slot', keys' := groups + [[i]], slot[r := |groups|], keys + [r];
    } else {
      CollectMore(root, i, groups, slot, keys);
      groups', slot', keys' := groups[slot[r] := groups[slot[r]] + [i]], slot, keys;
    }
  }

  method Collect(parent: array<nat>, ghost root: seq<nat>, ghost rank: seq<nat>)
    returns (groups: seq<seq<nat>>, ghost index: map<nat, nat>, ghost keys: seq<nat>)
    requires Forest(parent[..], root, rank) && |root| == |rank| == parent.Length
    modifies parent
    ensures Collected(root, parent.Length, groups, index, keys)
  {
    hide Forest;
    var slot: map<nat, nat> := map[];
    groups, keys := [], [];
    assert Collected(root, 0, groups, slot, keys);
    hide Collected;
    for i := 0 to parent.Length
      invariant Forest(parent[..], root, rank)
      invariant Collected(root, i, groups, slot, keys)
    {
      var r := Find(parent, i, root, rank);
      groups, slot, keys := Add(groups, slot, i, r, root, keys);
    }
    index := slot;
  }

  /** Two articles are in one group. */
  ghost predicate Together(groups: seq<seq<nat>>, i: nat, j: nat) {
    exists g :: 0 <= g < |groups| && i in groups[g] && j in groups[g]
  }

  /**
   * The groups are the connected components: every article is in exactly one of them, and two articles share
   * one exactly when a chain of linked pairs joins them. Members keep the input order and so do the groups.
   */
  ghost predicate IsGrouping(items: seq<Article>, entity: bool, groups: seq<seq<nat>>) {
    && (forall g, x :: 0 <= g < |groups| && x in groups[g] ==> x < |items|)
    && (forall i, j :: 0 <= i < |items| && 0 <= j < |items| ==>
          (Together(groups, i, j) <==> Connected(items, entity, i, j)))
    && (forall g, h, x :: 0 <= g < |groups| && 0 <= h < |groups| && x in groups[g] && x in groups[h] ==> g == h)
    && (forall g :: 0 <= g < |groups| ==> groups[g] != [])
    && (forall g, i, j :: 0 <= g < |groups| && 0 <= i < j < |groups[g]| ==> groups[g][i] < groups[g][j])
    && (forall g, h :: 0 <= g < h < |groups| ==> groups[g][0] < groups[h][0])
  }

  lemma CollectedTogether(
    root: seq<nat>, groups: seq<seq<nat>>, index: map<nat, nat>, keys: seq<nat>, i: nat, j: nat)
    requires Collected(root, |root|, groups, index, keys) && i < |root| && j < |root|
    ensures Together(groups, i, j) <==> root[i] == root[j]
  {
    if root[i] == root[j] {
      var g := index[root[i]];
      MembersAre(root, keys[g], |root|);
      assert i in groups[g] && j in groups[g];
    }
    if Together(groups, i, j) {
      var g :| 0 <= g < |groups| && i in groups[g] && j in groups[g];
      MembersAre(root, keys[g], |root|);
    }
  }

  lemma CollectedIsGrouping(
    items: seq<Article>, entity: bool, root: seq<nat>, groups: seq<seq<nat>>, index: map<nat, nat>, keys: seq<nat>)
    requires |root| == |items| && Progress(items, entity, root, |items|, |items|)
    requires Collected(root, |root|, groups, index, keys)
    ensures IsGrouping(items, entity, groups)
  {
    forall i, j | 0 <= i < |items| && 0 <= j < |items|
      ensures Together(groups, i, j) <==> Connected(items, entity, i, j)
    {
      CollectedTogether(root, groups, index, keys, i, j);
      ClassesAreComponents(items, entity, root, i, j);
    }
    forall g | 0 <= g < |groups|
      ensures forall x: nat :: x in groups[g] <==> x < |items| && root[x] == keys[g]
      ensures forall i, j :: 0 <= i < j < |groups[g]| ==> groups[g][i] < groups[g][j]
    {
      MembersAre(root, keys[g], |root|);
    }
  }

  method GroupArticles(items: seq<Article>, entity: bool) returns (groups: seq<seq<nat>>)
    ensures IsGrouping(items, entity, groups)
  {
    hide IsGrouping, Forest, Progress, Collected;
    var parent := new nat[|items|](k => k);
    ghost var root, rank := Unite(items, entity, parent);
    ProgressSize(items, entity, root);
    ghost var index, keys;
    groups, index, keys := Collect(parent, root, rank);
    CollectedIsGrouping(items, entity, root, groups, index, keys);
  }

  lemma ProgressSize(items: seq<Article>, entity: bool, root: seq<nat>)
    requires Progress(items, entity, root, |items|, |items|)
    ensures |root| == |items|
  {
  }
}
