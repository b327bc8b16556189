/**
 Threshold clustering of vectors with a path-compressing union-find that ignores rank.

 The similarity measure (cosine, on floats) is a parameter: all that matters here is which index
 pairs it puts at or above the threshold.  As in the program, it is only asked about `i < j`.
 */
module Clustering {

  // ---------------------------------------------------------------------------------------------
  // Specification: connected components of the threshold relation
  // ---------------------------------------------------------------------------------------------

  /** Indices `i` and `j` are at or above the threshold, whichever of the two is smaller. */
  ghost predicate Linked<V>(vectors: seq<V>, similar: (V, V) -> bool, i: nat, j: nat)
    requires i < |vectors| && j < |vectors|
  {
    (i < j && similar(vectors[i], vectors[j])) || (j < i && similar(vectors[j], vectors[i]))
  }

  ghost predicate IsChain<V>(vectors: seq<V>, similar: (V, V) -> bool, chain: seq<nat>) {
    && chain != []
    && (forall k | 0 <= k < |chain| :: chain[k] < |vectors|)
    && (forall k | 0 < k < |chain| :: Linked(vectors, similar, chain[k - 1], chain[k]))
  }

  /** A chain of linked pairs leads from `i` to `j`. */
  ghost predicate Connected<V>(vectors: seq<V>, similar: (V, V) -> bool, i: nat, j: nat) {
    exists chain :: IsChain(vectors, similar, chain) && chain[0] == i && chain[|chain| - 1] == j
  }

  lemma ConnectedRefl<V>(vectors: seq<V>, similar: (V, V) -> bool, i: nat)
    requires i < |vectors|
    ensures Connected(vectors, similar, i, i)
  {
    assert IsChain(vectors, similar, [i]);
  }

  lemma ConnectedLink<V>(vectors: seq<V>, similar: (V, V) -> bool, i: nat, j: nat)
    requires i < |vectors| && j < |vectors| && Linked(vectors, similar, i, j)
    ensures Connected(vectors, similar, i, j)
  {
    assert IsChain(vectors, similar, [i, j]);
  }

  lemma ConnectedTrans<V>(vectors: seq<V>, similar: (V, V) -> bool, i: nat, j: nat, k: nat)
    requires Connected(vectors, similar, i, j) && Connected(vectors, similar, j, k)
    ensures Connected(vectors, similar, i, k)
  {
    var a :| IsChain(vectors, similar, a) && a[0] == i && a[|a| - 1] == j;
    var b :| IsChain(vectors, similar, b) && b[0] == j && b[|b| - 1] == k;
    var c := a + b[1..];
    forall m | 0 < m < |c| ensures Linked(vectors, similar, c[m - 1], c[m]) {
      if m >= |a| {
        assert c[m] == b[m - |a| + 1] && c[m - 1] == b[m - |a|];
      }
    }
    assert IsChain(vectors, similar, c);
  }

  lemma ConnectedSym<V>(vectors: seq<V>, similar: (V, V) -> bool, i: nat, j: nat)
    requires Connected(vectors, similar, i, j)
    ensures Connected(vectors, similar, j, i)
  {
    var a :| IsChain(vectors, similar, a) && a[0] == i && a[|a| - 1] == j;
    var b := seq(|a|, k requires 0 <= k < |a| => a[|a| - 1 - k]);
    forall k | 0 < k < |b| ensures Linked(vectors, similar, b[k - 1], b[k]) {
      assert Linked(vectors, similar, a[|a| - 1 - k], a[|a| - k]);
    }
    assert IsChain(vectors, similar, b);
  }

  /** Groups are ascending, ordered by their smallest member, cover `0..n`, and two indices share a
      group exactly when they are connected. */
  ghost predicate IsClustering<V>(vectors: seq<V>, similar: (V, V) -> bool, groups: seq<seq<nat>>) {
    && (forall s | 0 <= s < |groups| :: groups[s] != [] && Ascending(groups[s]))
    && (forall s, t | 0 <= s < t < |groups| :: groups[s][0] < groups[t][0])
    && (forall s, a | 0 <= s < |groups| && a in groups[s] :: a < |vectors|)
    && (forall a: nat | a < |vectors| :: InSomeGroup(groups, a))
    && (forall s, t, a, b | 0 <= s < |groups| && 0 <= t < |groups| && a in groups[s] && b in groups[t] ::
          s == t <==> Connected(vectors, similar, a, b))
  }

  ghost predicate InSomeGroup(groups: seq<seq<nat>>, a: nat) {
    exists s :: 0 <= s < |groups| && a in groups[s]
  }

  ghost predicate Ascending(s: seq<nat>) {
    forall i, j | 0 <= i < j < |s| :: s[i] < s[j]
  }

  /** No index is listed twice: the groups are a partition. */
  lemma ClusteringIsPartition<V>(vectors: seq<V>, similar: (V, V) -> bool, groups: seq<seq<nat>>,
                                 s: nat, t: nat, a: nat)
    requires IsClustering(vectors, similar, groups)
    requires s < |groups| && t < |groups| && a in groups[s] && a in groups[t]
    ensures s == t
    ensures multiset(groups[s])[a] == 1
  {
    ConnectedRefl(vectors, similar, a);
    AscendingHasNoRepeats(groups[s], a);
  }

  lemma {:induction false} AscendingHasNoRepeats(s: seq<nat>, a: nat)
    requires Ascending(s)
    ensures multiset(s)[a] == if a in s then 1 else 0
  {
    if s != [] {
      assert s == [s[0]] + s[1..];
      AscendingHasNoRepeats(s[1..], a);
    }
  }

  // ---------------------------------------------------------------------------------------------
  // The parent forest
  // ---------------------------------------------------------------------------------------------

  /** `parent` is a forest: `root` names each element's root, and `height` strictly falls along
      parent pointers.  Unions ignore rank, so `height` is only a termination argument. */
  ghost predicate Forest(parent: seq<nat>, height: seq<nat>, root: seq<nat>) {
    && |height| == |root| == |parent|
    && forall x | 0 <= x < |parent| :: Node(parent, height, root, x)
  }

  ghost predicate Node(parent: seq<nat>, height: seq<nat>, root: seq<nat>, x: nat)
    requires |height| == |root| == |parent| && x < |parent|
  {
    && parent[x] < |parent|
    && root[x] < |parent|
    && (if parent[x] == x then root[x] == x else height[parent[x]] < height[x])
    && root[parent[x]] == root[x]
    && parent[root[x]] == root[x]
  }

  /** `k` steps up from `x`. */
  ghost function Climb(parent: seq<nat>, x: nat, k: nat): (r: nat)
    requires x < |parent| && InRange(parent)
    ensures r < |parent|
    decreases k
  {
    if k == 0 then x else Climb(parent, parent[x], k - 1)
  }

  ghost predicate InRange(parent: seq<nat>) {
    forall y | 0 <= y < |parent| :: parent[y] < |parent|
  }

  lemma ForestInRange(parent: seq<nat>, height: seq<nat>, root: seq<nat>)
    requires Forest(parent, height, root)
    ensures InRange(parent)
  {
    forall y | 0 <= y < |parent| ensures parent[y] < |parent| {
      assert Node(parent, height, root, y);
    }
  }

  /** The ghost `root` is what following parent pointers reaches, so it depends on `parent` alone. */
  lemma {:induction false} RootIsReached(parent: seq<nat>, height: seq<nat>, root: seq<nat>, x: nat, k: nat)
    requires Forest(parent, height, root) && x < |parent| && height[x] <= k
    ensures InRange(parent) && Climb(parent, x, k) == root[x]
    decreases k
  {
    ForestInRange(parent, height, root);
    assert Node(parent, height, root, x);
    if k > 0 {
      if parent[x] == x {
        ClimbStays(parent, x, k - 1);
      } else {
        RootIsReached(parent, height, root, parent[x], k - 1);
      }
    }
  }

  lemma {:induction false} ClimbStays(parent: seq<nat>, x: nat, k: nat)
    requires x < |parent| && parent[x] == x && InRange(parent)
    ensures Climb(parent, x, k) == x
  {
    if k > 0 {
      ClimbStays(parent, x, k - 1);
    }
  }

  /** Pointing an element straight at its root keeps the forest and every root. */
  lemma CompressKeepsForest(parent: seq<nat>, height: seq<nat>, root: seq<nat>, cur: nat)
    requires Forest(parent, height, root) && cur < |parent| && root[cur] != cur
    ensures root[cur] < |parent| && Forest(parent[cur := root[cur]], height, root)
  {
    assert Node(parent, height, root, cur);
    RootIsLower(parent, height, root, cur);
    var parent' := parent[cur := root[cur]];
    assert Node(parent, height, root, root[cur]);
    forall x | 0 <= x < |parent| ensures Node(parent', height, root, x) {
      assert Node(parent, height, root, x);
      assert Node(parent, height, root, root[x]);
    }
  }

  lemma {:induction false} RootIsLower(parent: seq<nat>, height: seq<nat>, root: seq<nat>, x: nat)
    requires Forest(parent, height, root) && x < |parent|
    ensures root[x] < |parent| && (root[x] == x || height[root[x]] < height[x])
    decreases height[x]
  {
    assert Node(parent, height, root, x);
    if parent[x] != x {
      RootIsLower(parent, height, root, parent[x]);
    }
  }

  /** Find with path compression: terminates, returns the root and changes no element's root. */
  method Find(parent: array<nat>, x: nat, ghost height: seq<nat>, ghost roots: seq<nat>) returns (root: nat)
    requires Forest(parent[..], height, roots) && x < parent.Length
    modifies parent
    ensures Forest(parent[..], height, roots)
    ensures root == roots[x] && root < parent.Length && parent[root] == root
    ensures parent[x] == root
    ensures forall y | 0 <= y < parent.Length :: parent[y] == old(parent[y]) || parent[y] == roots[y]
  {
    root := x;
    assert Node(parent[..], height, roots, x);
    while parent[root] != root
      invariant root < parent.Length && roots[root] == roots[x]
      invariant Node(parent[..], height, roots, root)
      decreases height[root]
    {
      root := parent[root];
      assert Node(parent[..], height, roots, root);
    }
    var cur: nat := x;
    while parent[cur] != root
      invariant cur < parent.Length && Forest(parent[..], height, roots)
      invariant roots[cur] == root && parent[root] == root
      invariant cur == x || parent[x] == root
      invariant forall y | 0 <= y < parent.Length :: parent[y] == old(parent[y]) || parent[y] == roots[y]
      decreases height[cur]
    {
      ghost var before := parent[..];
      assert Node(before, height, roots, cur);
      CompressKeepsForest(before, height, roots, cur);
      var next := parent[cur];
      parent[cur] := root;
      assert parent[..] == before[cur := root];
      cur := next;
    }
  }

  /** Hanging root `rj` under root `ri`: the merged tree takes the root `ri`. */
  ghost function MergedRoots(root: seq<nat>, ri: nat, rj: nat): (r: seq<nat>)
    ensures |r| == |root|
  {
    seq(|root|, y requires 0 <= y < |root| => if root[y] == rj then ri else root[y])
  }

  ghost function MergedHeights(height: seq<nat>, root: seq<nat>, ri: nat, rj: nat): (h: seq<nat>)
    requires |height| == |root| && ri < |height|
    ensures |h| == |height|
  {
    seq(|height|, y requires 0 <= y < |height| => if root[y] == rj then height[y] + height[ri] + 1 else height[y])
  }

  lemma UnionKeepsForest(parent: seq<nat>, height: seq<nat>, root: seq<nat>, ri: nat, rj: nat)
    requires Forest(parent, height, root)
    requires ri < |parent| && rj < |parent| && ri != rj && parent[ri] == ri && parent[rj] == rj
    ensures Forest(parent[rj := ri], MergedHeights(height, root, ri, rj), MergedRoots(root, ri, rj))
  {
    assert Node(parent, height, root, ri) && Node(parent, height, root, rj);
    var parent', height', root' := parent[rj := ri], MergedHeights(height, root, ri, rj), MergedRoots(root, ri, rj);
    forall x | 0 <= x < |parent| ensures Node(parent', height', root', x) {
      assert Node(parent, height, root, x);
    }
  }

  // ---------------------------------------------------------------------------------------------
  // Sorting what is already sorted
  // ---------------------------------------------------------------------------------------------

  ghost predicate SortedPermutation<T(!new)>(sorted: seq<T>, s: seq<T>, key: T -> int) {
    && multiset(sorted) == multiset(s)
    && forall i, j | 0 <= i < j < |sorted| :: key(sorted[i]) <= key(sorted[j])
  }

  ghost predicate StrictlySorted<T(!new)>(s: seq<T>, key: T -> int) {
    forall i, j | 0 <= i < j < |s| :: key(s[i]) < key(s[j])
  }

  /** With strictly ascending keys there is one sorted permutation, the sequence itself; so a sort,
      stable or not, changes nothing. */
  lemma {:induction false} SortChangesNothing<T(!new)>(sorted: seq<T>, s: seq<T>, key: T -> int)
    requires SortedPermutation(sorted, s, key) && StrictlySorted(s, key)
    ensures sorted == s
  {
    assert |multiset(sorted)| == |sorted| && |multiset(s)| == |s|;
    if s != [] {
      SameFirst(sorted, s, key);
      SortedTails(sorted, s, key);
      hide SortedPermutation, StrictlySorted;
      SortChangesNothing(sorted[1..], s[1..], key);
      assert s == [s[0]] + s[1..] && sorted == [sorted[0]] + sorted[1..];
    }
  }

  lemma MultisetTail<T>(s: seq<T>)
    requires s != []
    ensures multiset(s[1..]) == multiset(s) - multiset{s[0]}
  {
    assert s == [s[0]] + s[1..];
  }

  lemma SortedTails<T(!new)>(sorted: seq<T>, s: seq<T>, key: T -> int)
    requires SortedPermutation(sorted, s, key) && StrictlySorted(s, key) && s != [] && sorted != [] && sorted[0] == s[0]
    ensures SortedPermutation(sorted[1..], s[1..], key) && StrictlySorted(s[1..], key)
  {
    MultisetTail(sorted);
    MultisetTail(s);
  }

  lemma SameFirst<T(!new)>(sorted: seq<T>, s: seq<T>, key: T -> int)
    requires |sorted| == |s| > 0 && SortedPermutation(sorted, s, key) && StrictlySorted(s, key)
    ensures sorted[0] == s[0]
  {
    assert sorted[0] in multiset(s) && s[0] in multiset(sorted);
    var i :| 0 <= i < |s| && s[i] == sorted[0];
    var j :| 0 <= j < |sorted| && sorted[j] == s[0];
    assert key(sorted[0]) <= key(sorted[j]);
    assert i > 0 ==> key(s[0]) < key(s[i]);
  }

  /** `sorted` is what sorting the members of a group yields. */
  ghost predicate SortOfGroup(sorted: seq<nat>, group: seq<nat>) {
    SortedPermutation(sorted, group, (m: nat) => m)
  }

  /** `sorted` is what sorting the groups by their first member yields. */
  ghost predicate SortOfGroups(sorted: seq<seq<nat>>, groups: seq<seq<nat>>) {
    SortedPermutation(sorted, groups, (g: seq<nat>) => if g == [] then 0 else g[0])
  }

  lemma SortsChangeNothing(groups: seq<seq<nat>>)
    requires forall s | 0 <= s < |groups| :: groups[s] != [] && Ascending(groups[s])
    requires forall s, t | 0 <= s < t < |groups| :: groups[s][0] < groups[t][0]
    ensures forall s, sorted | 0 <= s < |groups| && SortOfGroup(sorted, groups[s]) :: sorted == groups[s]
    ensures forall sorted | SortOfGroups(sorted, groups) :: sorted == groups
  {
    forall s, sorted | 0 <= s < |groups| && SortOfGroup(sorted, groups[s]) ensures sorted == groups[s] {
      SortChangesNothing(sorted, groups[s], (m: nat) => m);
    }
    forall sorted | SortOfGroups(sorted, groups) ensures sorted == groups {
      var key := (g: seq<nat>) => if g == [] then 0 else g[0];
      assert StrictlySorted(groups, key);
      SortChangesNothing(sorted, groups, key);
    }
  }

  // ---------------------------------------------------------------------------------------------
  // The algorithm
  // ---------------------------------------------------------------------------------------------

  /** Every pair before `(i, j)` in the double loop that is linked shares a root. */
  ghost predicate PairsMerged<V>(vectors: seq<V>, similar: (V, V) -> bool, roots: seq<nat>, i: nat, j: nat)
    requires |roots| == |vectors|
  {
    forall a: nat, b: nat | a < b < |vectors| && (a < i || (a == i && b < j)) && similar(vectors[a], vectors[b]) ::
      roots[a] == roots[b]
  }

  ghost predicate RootsConnected<V>(vectors: seq<V>, similar: (V, V) -> bool, roots: seq<nat>)
    requires |roots| == |vectors|
  {
    forall a: nat | a < |vectors| :: Connected(vectors, similar, a, roots[a])
  }

  /** Once all linked pairs are merged, a chain never leaves a tree. */
  lemma {:induction false} ChainSharesRoot<V>(vectors: seq<V>, similar: (V, V) -> bool, roots: seq<nat>,
      chain: seq<nat>)
    requires |roots| == |vectors| && PairsMerged(vectors, similar, roots, |vectors|, 0)
    requires IsChain(vectors, similar, chain)
    ensures roots[chain[0]] == roots[chain[|chain| - 1]]
  {
    if |chain| > 1 {
      var init := chain[..|chain| - 1];
      assert IsChain(vectors, similar, init);
      ChainSharesRoot(vectors, similar, roots, init);
      assert Linked(vectors, similar, chain[|chain| - 2], chain[|chain| - 1]);
    }
  }

  lemma SameRootIffConnected<V>(vectors: seq<V>, similar: (V, V) -> bool, roots: seq<nat>, a: nat, b: nat)
    requires |roots| == |vectors| && a < |vectors| && b < |vectors|
    requires PairsMerged(vectors, similar, roots, |vectors|, 0) && RootsConnected(vectors, similar, roots)
    ensures roots[a] == roots[b] <==> Connected(vectors, similar, a, b)
  {
    if roots[a] == roots[b] {
      ConnectedSym(vectors, similar, b, roots[b]);
      ConnectedTrans(vectors, similar, a, roots[a], b);
    }
    if Connected(vectors, similar, a, b) {
      var chain :| IsChain(vectors, similar, chain) && chain[0] == a && chain[|chain| - 1] == b;
      ChainSharesRoot(vectors, similar, roots, chain);
    }
  }

  lemma MergeKeepsConnected<V>(vectors: seq<V>, similar: (V, V) -> bool, roots: seq<nat>, i: nat, j: nat)
    requires |roots| == |vectors| && i < j < |vectors| && similar(vectors[i], vectors[j])
    requires RootsConnected(vectors, similar, roots)
    ensures RootsConnected(vectors, similar, MergedRoots(roots, roots[i], roots[j]))
  {
    forall a: nat | a < |vectors| && roots[a] == roots[j] ensures Connected(vectors, similar, a, roots[i]) {
      ConnectedSym(vectors, similar, j, roots[j]);
      ConnectedTrans(vectors, similar, a, roots[j], j);
      ConnectedLink(vectors, similar, j, i);
      ConnectedTrans(vectors, similar, a, j, i);
      ConnectedTrans(vectors, similar, a, i, roots[i]);
    }
  }

  /** First phase: merge every linked pair. */
  method MergeLinkedPairs<V>(vectors: seq<V>, similar: (V, V) -> bool)
    returns (parent: array<nat>, ghost height: seq<nat>, ghost roots: seq<nat>)
    ensures fresh(parent) && parent.Length == |vectors| && Forest(parent[..], height, roots)
    ensures forall a: nat, b: nat | a < |vectors| && b < |vectors| ::
              roots[a] == roots[b] <==> Connected(vectors, similar, a, b)
  {
    hide Connected, Forest, PairsMerged, RootsConnected;
    var n := |vectors|;
    parent := new nat[n](i => i);
    height, roots := seq(n, _ => 0), seq(n, i => i);
    SingletonsAreMerged(vectors, similar, parent[..], height, roots);
    for i := 0 to n
      invariant Forest(parent[..], height, roots) && parent.Length == n == |roots|
      invariant PairsMerged(vectors, similar, roots, i, 0) && RootsConnected(vectors, similar, roots)
    {
      RowStarts(vectors, similar, roots, i);
      for j := i + 1 to n
        invariant Forest(parent[..], height, roots) && parent.Length == n == |roots|
        invariant PairsMerged(vectors, similar, roots, i, j) && RootsConnected(vectors, similar, roots)
      {
        if similar(vectors[i], vectors[j]) {
          ghost var before := roots;
          height, roots := MergePair(parent, i, j, height, roots);
          MergeKeepsConnected(vectors, similar, before, i, j);
          MergeKeepsPairs(vectors, similar, before, i, j);
        } else {
          SkipKeepsPairs(vectors, similar, roots, i, j);
        }
      }
      RowEnds(vectors, similar, roots, i);
    }
    forall a: nat, b: nat | a < n && b < n ensures roots[a] == roots[b] <==> Connected(vectors, similar, a, b) {
      SameRootIffConnected(vectors, similar, roots, a, b);
    }
  }

  lemma SingletonsAreMerged<V>(vectors: seq<V>, similar: (V, V) -> bool, parent: seq<nat>, height: seq<nat>,
      roots: seq<nat>)
    requires |parent| == |height| == |roots| == |vectors|
    requires forall i | 0 <= i < |parent| :: parent[i] == i == roots[i]
    ensures Forest(parent, height, roots) && PairsMerged(vectors, similar, roots, 0, 0) &&
            RootsConnected(vectors, similar, roots)
  {
    hide Connected;
    forall a: nat | a < |vectors| ensures Connected(vectors, similar, a, roots[a]) {
      ConnectedRefl(vectors, similar, a);
    }
  }

  lemma RowStarts<V>(vectors: seq<V>, similar: (V, V) -> bool, roots: seq<nat>, i: nat)
    requires |roots| == |vectors| && PairsMerged(vectors, similar, roots, i, 0)
    ensures PairsMerged(vectors, similar, roots, i, i + 1)
  {
  }

  lemma RowEnds<V>(vectors: seq<V>, similar: (V, V) -> bool, roots: seq<nat>, i: nat)
    requires |roots| == |vectors| && PairsMerged(vectors, similar, roots, i, if i < |vectors| then |vectors| else 0)
    ensures PairsMerged(vectors, similar, roots, i + 1, 0)
  {
  }

  lemma SkipKeepsPairs<V>(vectors: seq<V>, similar: (V, V) -> bool, roots: seq<nat>, i: nat, j: nat)
    requires |roots| == |vectors| && i < j < |vectors| && PairsMerged(vectors, similar, roots, i, j)
    requires !similar(vectors[i], vectors[j])
    ensures PairsMerged(vectors, similar, roots, i, j + 1)
  {
  }

  lemma MergeKeepsPairs<V>(vectors: seq<V>, similar: (V, V) -> bool, roots: seq<nat>, i: nat, j: nat)
    requires |roots| == |vectors| && i < j < |vectors| && PairsMerged(vectors, similar, roots, i, j)
    ensures PairsMerged(vectors, similar, MergedRoots(roots, roots[i], roots[j]), i, j + 1)
  {
  }

  /** Find both roots and hang one under the other, unless they are the same. */
  method MergePair(parent: array<nat>, i: nat, j: nat, ghost height: seq<nat>, ghost roots: seq<nat>)
    returns (ghost height': seq<nat>, ghost roots': seq<nat>)
    requires Forest(parent[..], height, roots) && i < parent.Length && j < parent.Length
    modifies parent
    ensures Forest(parent[..], height', roots')
    ensures roots' == MergedRoots(roots, roots[i], roots[j])
  {
    hide Node;
    height', roots' := height, roots;
    var ri := Find(parent, i, height, roots);
    var rj := Find(parent, j, height, roots);
    if ri != rj {
      RootStays(parent[..], height, roots, i);
      UnionKeepsForest(parent[..], height, roots, ri, rj);
      ghost var before := parent[..];
      parent[rj] := ri;
      assert parent[..] == before[rj := ri];
      height', roots' := MergedHeights(height, roots, ri, rj), MergedRoots(roots, ri, rj);
    }
  }

  /** An element's root is its own parent. */
  lemma {:induction false} RootStays(parent: seq<nat>, height: seq<nat>, root: seq<nat>, x: nat)
    requires Forest(parent, height, root) && x < |parent|
    ensures root[x] < |parent| && parent[root[x]] == root[x]
    decreases height[x]
  {
    assert Node(parent, height, root, x);
    if parent[x] != x {
      RootStays(parent, height, root, parent[x]);
    }
  }

  /** What the collecting loop keeps: `slots` maps each root met so far to its group. */
  ghost predicate Collected(roots: seq<nat>, idx: nat, slots: map<nat, nat>, groups: seq<seq<nat>>)
    requires idx <= |roots|
  {
    && (forall r | r in slots :: slots[r] < |groups|)
    && (forall s | 0 <= s < |groups| :: GroupOk(roots, idx, slots, groups[s], s))
    && (forall r | r in slots :: roots[groups[slots[r]][0]] == r)
    && (forall s, t | 0 <= s < t < |groups| :: groups[s][0] < groups[t][0])
    && (forall a: nat | a < idx :: roots[a] in slots && a in groups[slots[roots[a]]])
  }

  /** Group `s` holds ascending indices below `idx`, all of the root that `slots` sends to `s`. */
  ghost predicate GroupOk(roots: seq<nat>, idx: nat, slots: map<nat, nat>, group: seq<nat>, s: nat)
    requires idx <= |roots|
  {
    && group != []
    && Ascending(group)
    && (forall k | 0 <= k < |group| ::
          group[k] < idx && roots[group[k]] == roots[group[0]] && roots[group[k]] in slots &&
              slots[roots[group[k]]] == s)
  }

  lemma CollectKnown(roots: seq<nat>, idx: nat, slots: map<nat, nat>, groups: seq<seq<nat>>)
    requires idx < |roots| && Collected(roots, idx, slots, groups) && roots[idx] in slots
    ensures var s := slots[roots[idx]]; Collected(roots, idx + 1, slots, groups[s := groups[s] + [idx]])
  {
    var s := slots[roots[idx]];
    var groups' := groups[s := groups[s] + [idx]];
    assert GroupOk(roots, idx, slots, groups[s], s);
    forall t | 0 <= t < |groups| ensures GroupOk(roots, idx + 1, slots, groups'[t], t) {
      assert GroupOk(roots, idx, slots, groups[t], t);
    }
    forall a: nat | a < idx + 1 ensures roots[a] in slots && a in groups'[slots[roots[a]]] {
      if a == idx {
        assert groups'[s][|groups[s]|] == idx;
      } else {
        assert a in groups[slots[roots[a]]];
      }
    }
  }

  lemma CollectNew(roots: seq<nat>, idx: nat, slots: map<nat, nat>, groups: seq<seq<nat>>)
    requires idx < |roots| && Collected(roots, idx, slots, groups) && roots[idx] !in slots
    ensures Collected(roots, idx + 1, slots[roots[idx] := |groups|], groups + [[idx]])
  {
    var groups', slots' := groups + [[idx]], slots[roots[idx] := |groups|];
    forall t | 0 <= t < |groups'| ensures GroupOk(roots, idx + 1, slots', groups'[t], t) {
      if t < |groups| {
        assert GroupOk(roots, idx, slots, groups[t], t);
      }
    }
    forall s, t | 0 <= s < t < |groups'| ensures groups'[s][0] < groups'[t][0] {
      assert GroupOk(roots, idx, slots, groups[s], s);
    }
    forall a: nat | a < idx + 1 ensures roots[a] in slots' && a in groups'[slots'[roots[a]]] {
      if a == idx {
        assert groups'[|groups|] == [idx];
      } else {
        assert a in groups[slots[roots[a]]];
      }
    }
  }

  lemma CollectedIsClustering<V>(vectors: seq<V>, similar: (V, V) -> bool,
                                 roots: seq<nat>, slots: map<nat, nat>, groups: seq<seq<nat>>)
    requires |roots| == |vectors| && Collected(roots, |vectors|, slots, groups)
    requires forall a: nat, b: nat | a < |vectors| && b < |vectors| ::
               roots[a] == roots[b] <==> Connected(vectors, similar, a, b)
    ensures IsClustering(vectors, similar, groups)
  {
    forall s | 0 <= s < |groups| ensures groups[s] != [] && Ascending(groups[s]) {
      assert GroupOk(roots, |vectors|, slots, groups[s], s);
    }
    forall s, a | 0 <= s < |groups| && a in groups[s]
      ensures a < |vectors| && roots[a] in slots && slots[roots[a]] == s && roots[a] == roots[groups[s][0]]
    {
      assert GroupOk(roots, |vectors|, slots, groups[s], s);
    }
    forall a: nat | a < |vectors| ensures InSomeGroup(groups, a) {
      assert a in groups[slots[roots[a]]];
    }
  }

  /** Connected-component clustering.  The two closing sorts of the program are the last two
      postconditions: any sort of a group, or of the groups by first member, is the identity. */
  method ConnectedComponentClusters<V>(vectors: seq<V>, similar: (V, V) -> bool) returns (groups: seq<seq<nat>>)
    ensures IsClustering(vectors, similar, groups)
    ensures forall s, sorted | 0 <= s < |groups| && SortOfGroup(sorted, groups[s]) :: sorted == groups[s]
    ensures forall sorted | SortOfGroups(sorted, groups) :: sorted == groups
  {
    hide Forest, Collected, IsClustering, Connected, SortOfGroup, SortOfGroups;
    groups := [];
    var parent, height, roots := MergeLinkedPairs(vectors, similar);
    var slots: map<nat, nat> := map[];
    NothingCollected(roots);
    SameLengths(parent[..], height, roots);
    for idx := 0 to |vectors|
      invariant Forest(parent[..], height, roots) && parent.Length == |vectors| == |roots|
      invariant Collected(roots, idx, slots, groups)
    {
      var p := parent[idx];
      ParentSharesRoot(parent[..], height, roots, idx);
      var root := Find(parent, p, height, roots);
      if root in slots {
        CollectKnown(roots, idx, slots, groups);
        SlotInRange(roots, idx, slots, groups, root);
        var slot := slots[root];
        groups := groups[slot := groups[slot] + [idx]];
      } else {
        CollectNew(roots, idx, slots, groups);
        slots := slots[root := |groups|];
        groups := groups + [[idx]];
      }
    }
    CollectedIsClustering(vectors, similar, roots, slots, groups);
    CollectedIsSorted(roots, |vectors|, slots, groups);
    SortsChangeNothing(groups);
  }

  lemma NothingCollected(roots: seq<nat>)
    ensures Collected(roots, 0, map[], [])
  {
  }

  lemma SameLengths(parent: seq<nat>, height: seq<nat>, root: seq<nat>)
    requires Forest(parent, height, root)
    ensures |parent| == |height| == |root|
  {
  }

  lemma ParentSharesRoot(parent: seq<nat>, height: seq<nat>, root: seq<nat>, x: nat)
    requires Forest(parent, height, root) && x < |parent|
    ensures |root| == |parent| && parent[x] < |parent| && root[parent[x]] == root[x]
  {
    assert Node(parent, height, root, x);
  }

  lemma SlotInRange(roots: seq<nat>, idx: nat, slots: map<nat, nat>, groups: seq<seq<nat>>, r: nat)
    requires idx <= |roots| && Collected(roots, idx, slots, groups) && r in slots
    ensures slots[r] < |groups|
  {
  }

  lemma CollectedIsSorted(roots: seq<nat>, idx: nat, slots: map<nat, nat>, groups: seq<seq<nat>>)
    requires idx <= |roots| && Collected(roots, idx, slots, groups)
    ensures forall s | 0 <= s < |groups| :: groups[s] != [] && Ascending(groups[s])
    ensures forall s, t | 0 <= s < t < |groups| :: groups[s][0] < groups[t][0]
  {
    forall s | 0 <= s < |groups| ensures groups[s] != [] && Ascending(groups[s]) {
      assert GroupOk(roots, idx, slots, groups[s], s);
    }
  }
}
