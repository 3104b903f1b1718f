/**
 * The X-Ray trace tree builder: segments of a trace are ordered by start
 * time, the earliest becomes the root, every other segment is hung under
 * the segment owning its parent id, linked child traces are optionally
 * fetched and hung under the segment that links them, and the root-to-leaf
 * paths are enumerated depth first.
 *
 * Segments are objects whose `children` lists the builder appends to. The
 * model keeps them in an arena: node `i` holds a segment and the arena
 * indices of its children.
 */
module XrayTree {
  import opened Wrappers
  import opened Xray
  import Text

  /** The shared counter bound on linked-trace fetches. */
  const MaxTreeDepth: nat := 5

  /** A segment object together with the children appended to it. */
  datatype Node = Node(segment: Segment, children: seq<nat>)

  /** Every child index names a node of the arena. */
  predicate Bounded(nodes: seq<Node>)
  {
    forall p, i :: 0 <= p < |nodes| && 0 <= i < |nodes[p].children| ==> nodes[p].children[i] < |nodes|
  }

  /** A node occurs at most once in all child lists together: it has at most one parent. */
  predicate UniqueParents(nodes: seq<Node>)
  {
    forall p, i, q, j ::
      0 <= p < |nodes| && 0 <= i < |nodes[p].children| &&
      0 <= q < |nodes| && 0 <= j < |nodes[q].children| &&
      nodes[p].children[i] == nodes[q].children[j]
      ==> p == q && i == j
  }

  predicate Shaped(nodes: seq<Node>)
  {
    Bounded(nodes) && UniqueParents(nodes)
  }

  /** No node has `r` as a child. */
  predicate Detached(nodes: seq<Node>, r: nat)
  {
    forall p :: 0 <= p < |nodes| ==> r !in nodes[p].children
  }

  /** A non-empty walk that goes from each node to one of its children. */
  predicate Chain(nodes: seq<Node>, c: seq<nat>)
  {
    |c| >= 1 &&
    (forall i :: 0 <= i < |c| ==> c[i] < |nodes|) &&
    (forall i :: 0 <= i < |c| - 1 ==> c[i + 1] in nodes[c[i]].children)
  }

  predicate IsLeaf(nodes: seq<Node>, n: nat)
    requires n < |nodes|
  {
    nodes[n].children == []
  }

  /** A walk from a parentless node down to a leaf. */
  predicate RootLeafChain(nodes: seq<Node>, c: seq<nat>)
  {
    Chain(nodes, c) && Detached(nodes, c[0]) && IsLeaf(nodes, c[|c| - 1])
  }

  predicate DistinctNodes(c: seq<nat>)
  {
    forall i, j :: 0 <= i < j < |c| ==> c[i] != c[j]
  }

  /** What a call of the path enumeration may assume about its arguments. */
  predicate PathArgs(nodes: seq<Node>, p: seq<nat>)
  {
    Shaped(nodes) && Chain(nodes, p) && Detached(nodes, p[0]) && DistinctNodes(p)
  }

  /**
   * `FindLeafSegmentPaths`: the walk so far extended by `n`; if `n` has no
   * children that single path, otherwise the paths below each child, in
   * the order the children are stored. Each child gets its own copy of the
   * prefix, which values give for free.
   */
  function FindLeafSegmentPaths(nodes: seq<Node>, n: nat, path: seq<nat>): seq<seq<nat>>
    requires n < |nodes| && PathArgs(nodes, path + [n])
    decreases |nodes| - |path|, 1, 0
  {
    var p := path + [n];
    if nodes[n].children == [] then [p]
    else ChildLeafPaths(nodes, nodes[n].children, p)
  }

  /** The loop over the children of the last node of `p`; `kids` is a suffix of its child list. */
  function ChildLeafPaths(nodes: seq<Node>, kids: seq<nat>, p: seq<nat>): seq<seq<nat>>
    requires PathArgs(nodes, p)
    requires KidsSuffix(nodes, p[|p| - 1], kids)
    decreases |nodes| - |p| + 1, 0, |kids|
  {
    if kids == [] then []
    else
      var last := p[|p| - 1];
      var cs := nodes[last].children;
      assert kids[0] == cs[|cs| - |kids|];
      ChildOffPath(nodes, p, kids[0]);
      DistinctBound(p + [kids[0]], |nodes|);
      assert kids[1..] == cs[|cs| - |kids[1..]|..];
      FindLeafSegmentPaths(nodes, kids[0], p) + ChildLeafPaths(nodes, kids[1..], p)
  }

  predicate KidsSuffix(nodes: seq<Node>, n: nat, kids: seq<nat>)
  {
    n < |nodes| && |kids| <= |nodes[n].children| &&
    kids == nodes[n].children[|nodes[n].children| - |kids|..]
  }

  /** A child of the last node of a walk from a parentless node is not on the walk. */
  lemma ChildOffPath(nodes: seq<Node>, p: seq<nat>, c: nat)
    requires PathArgs(nodes, p)
    requires c in nodes[p[|p| - 1]].children
    ensures PathArgs(nodes, p + [c])
  {
    var last := p[|p| - 1];
    var ic :| 0 <= ic < |nodes[last].children| && nodes[last].children[ic] == c;
    forall k | 0 <= k < |p| ensures p[k] != c {
      if k > 0 {
        assert p[k] in nodes[p[k - 1]].children;
        var ik :| 0 <= ik < |nodes[p[k - 1]].children| && nodes[p[k - 1]].children[ik] == p[k];
      }
    }
  }

  /** Pigeonhole: a repetition-free list of indices below `n` has at most `n` entries. */
  lemma DistinctBound(s: seq<nat>, n: nat)
    requires DistinctNodes(s)
    requires forall i :: 0 <= i < |s| ==> s[i] < n
    ensures |s| <= n
  {
    var elems := set i | 0 <= i < |s| :: s[i];
    DistinctCard(s);
    RangeCard(n);
    assert elems <= Range(n);
    SubsetCard(elems, Range(n));
  }

  /** The indices below `n`. */
  function Range(n: nat): (r: set<nat>)
    ensures forall k: nat :: k in r <==> k < n
  {
    if n == 0 then {} else Range(n - 1) + {n - 1}
  }

  lemma {:induction false} DistinctCard(s: seq<nat>)
    requires DistinctNodes(s)
    ensures |set i | 0 <= i < |s| :: s[i]| == |s|
    decreases |s|
  {
    if s != [] {
      var t := s[..|s| - 1];
      DistinctCard(t);
      var a := set i | 0 <= i < |t| :: t[i];
      var b := set i | 0 <= i < |s| :: s[i];
      assert b == a + {s[|s| - 1]};
      assert s[|s| - 1] !in a;
    }
  }

  lemma {:induction false} RangeCard(n: nat)
    ensures |Range(n)| == n
    decreases n
  {
    if n > 0 {
      RangeCard(n - 1);
    }
  }

  lemma {:induction false} SubsetCard<T>(a: set<T>, b: set<T>)
    requires a <= b
    ensures |a| <= |b|
    decreases b
  {
    if a != {} {
      var x :| x in a;
      SubsetCard(a - {x}, b - {x});
    }
  }

  /**
   * Every enumerated path extends the walk so far, follows child links,
   * and ends at a node without children.
   */
  lemma {:induction false} LeafPathsSound(nodes: seq<Node>, n: nat, path: seq<nat>)
    requires n < |nodes| && PathArgs(nodes, path + [n])
    ensures forall k :: 0 <= k < |FindLeafSegmentPaths(nodes, n, path)| ==>
      ExtendsToLeaf(nodes, path + [n], FindLeafSegmentPaths(nodes, n, path)[k])
    decreases |nodes| - |path|, 1, 0
  {
    var p := path + [n];
    if nodes[n].children != [] {
      assert KidsSuffix(nodes, n, nodes[n].children);
      ChildLeafPathsSound(nodes, nodes[n].children, p);
    }
  }

  /** `q` is a walk that starts with `p`, goes on by child links, and ends at a leaf. */
  predicate ExtendsToLeaf(nodes: seq<Node>, p: seq<nat>, q: seq<nat>)
  {
    Chain(nodes, q) && |p| <= |q| && q[..|p|] == p && IsLeaf(nodes, q[|q| - 1])
  }

  lemma {:induction false} ChildLeafPathsSound(nodes: seq<Node>, kids: seq<nat>, p: seq<nat>)
    requires PathArgs(nodes, p) && KidsSuffix(nodes, p[|p| - 1], kids)
    ensures forall k :: 0 <= k < |ChildLeafPaths(nodes, kids, p)| ==>
      ExtendsToLeaf(nodes, p, ChildLeafPaths(nodes, kids, p)[k]) &&
      |ChildLeafPaths(nodes, kids, p)[k]| > |p| &&
      ChildLeafPaths(nodes, kids, p)[k][|p|] in kids
    decreases |nodes| - |p| + 1, 0, |kids|
  {
    if kids != [] {
      var cs := nodes[p[|p| - 1]].children;
      assert kids[0] == cs[|cs| - |kids|];
      ChildOffPath(nodes, p, kids[0]);
      DistinctBound(p + [kids[0]], |nodes|);
      assert kids[1..] == cs[|cs| - |kids[1..]|..];
      var a := FindLeafSegmentPaths(nodes, kids[0], p);
      var b := ChildLeafPaths(nodes, kids[1..], p);
      LeafPathsSound(nodes, kids[0], p);
      ChildLeafPathsSound(nodes, kids[1..], p);
      var r := ChildLeafPaths(nodes, kids, p);
      assert r == a + b;
      forall k | 0 <= k < |r|
        ensures ExtendsToLeaf(nodes, p, r[k]) && |r[k]| > |p| && r[k][|p|] in kids
      {
        if k < |a| {
          assert r[k] == a[k];
          ExtendsOneMore(nodes, p, kids[0], a[k]);
        } else {
          assert r[k] == b[k - |a|];
        }
      }
    }
  }

  /** A walk to a leaf that starts with `p + [x]` starts with `p` and takes `x` next. */
  lemma ExtendsOneMore(nodes: seq<Node>, p: seq<nat>, x: nat, q: seq<nat>)
    requires ExtendsToLeaf(nodes, p + [x], q)
    ensures ExtendsToLeaf(nodes, p, q) && |q| > |p| && q[|p|] == x
  {
    assert q[..|p| + 1] == p + [x];
    assert q[..|p|] == (p + [x])[..|p|];
  }

  /**
   * Every walk that starts with the walk so far and ends at a leaf is
   * enumerated: no leaf below `n` is missed.
   */
  lemma {:induction false} LeafPathsComplete(nodes: seq<Node>, n: nat, path: seq<nat>, c: seq<nat>)
    requires n < |nodes| && PathArgs(nodes, path + [n])
    requires ExtendsToLeaf(nodes, path + [n], c)
    ensures c in FindLeafSegmentPaths(nodes, n, path)
    decreases |nodes| - |path|, 1, 0
  {
    var p := path + [n];
    assert c[|p| - 1] == p[|p| - 1];
    assert |c| > |p| ==> c[|p|] in nodes[c[|p| - 1]].children;
    if nodes[n].children == [] {
      assert c == c[..|p|];
    } else {
      assert KidsSuffix(nodes, n, nodes[n].children);
      ChildLeafPathsComplete(nodes, nodes[n].children, p, c);
    }
  }

  lemma {:induction false} ChildLeafPathsComplete(nodes: seq<Node>, kids: seq<nat>, p: seq<nat>, c: seq<nat>)
    requires PathArgs(nodes, p) && KidsSuffix(nodes, p[|p| - 1], kids)
    requires ExtendsToLeaf(nodes, p, c) && |c| > |p| && c[|p|] in kids
    ensures c in ChildLeafPaths(nodes, kids, p)
    decreases |nodes| - |p| + 1, 0, |kids|
  {
    var cs := nodes[p[|p| - 1]].children;
    assert kids[0] == cs[|cs| - |kids|];
    ChildOffPath(nodes, p, kids[0]);
    DistinctBound(p + [kids[0]], |nodes|);
    assert kids[1..] == cs[|cs| - |kids[1..]|..];
    if c[|p|] == kids[0] {
      assert c[..|p| + 1] == c[..|p|] + [c[|p|]];
      LeafPathsComplete(nodes, kids[0], p, c);
    } else {
      ChildLeafPathsComplete(nodes, kids[1..], p, c);
    }
  }

  /** No path is enumerated twice. */
  lemma {:induction false} LeafPathsDistinct(nodes: seq<Node>, n: nat, path: seq<nat>)
    requires n < |nodes| && PathArgs(nodes, path + [n])
    ensures forall i, j :: 0 <= i < j < |FindLeafSegmentPaths(nodes, n, path)| ==>
      FindLeafSegmentPaths(nodes, n, path)[i] != FindLeafSegmentPaths(nodes, n, path)[j]
    decreases |nodes| - |path|, 1, 0
  {
    if nodes[n].children != [] {
      assert KidsSuffix(nodes, n, nodes[n].children);
      ChildLeafPathsDistinct(nodes, nodes[n].children, path + [n]);
    }
  }

  lemma {:induction false} ChildLeafPathsDistinct(nodes: seq<Node>, kids: seq<nat>, p: seq<nat>)
    requires PathArgs(nodes, p) && KidsSuffix(nodes, p[|p| - 1], kids)
    ensures forall i, j :: 0 <= i < j < |ChildLeafPaths(nodes, kids, p)| ==>
      ChildLeafPaths(nodes, kids, p)[i] != ChildLeafPaths(nodes, kids, p)[j]
    decreases |nodes| - |p| + 1, 0, |kids|
  {
    if kids != [] {
      var last := p[|p| - 1];
      var cs := nodes[last].children;
      assert kids[0] == cs[|cs| - |kids|];
      ChildOffPath(nodes, p, kids[0]);
      DistinctBound(p + [kids[0]], |nodes|);
      assert kids[1..] == cs[|cs| - |kids[1..]|..];
      var a := FindLeafSegmentPaths(nodes, kids[0], p);
      var b := ChildLeafPaths(nodes, kids[1..], p);
      LeafPathsDistinct(nodes, kids[0], p);
      ChildLeafPathsDistinct(nodes, kids[1..], p);
      LeafPathsSound(nodes, kids[0], p);
      ChildLeafPathsSound(nodes, kids[1..], p);
      assert kids[0] !in kids[1..] by {
        forall t | 1 <= t < |kids| ensures kids[t] != kids[0] {
          assert kids[t] == cs[|cs| - |kids| + t];
        }
      }
      forall k | 0 <= k < |a| ensures |a[k]| > |p| && a[k][|p|] == kids[0] {
        assert ExtendsToLeaf(nodes, p + [kids[0]], a[k]);
        assert a[k][..|p| + 1][|p|] == kids[0];
      }
      ConcatDistinct(a, b, |p|, kids[0]);
    }
  }

  /** Two repetition-free lists of walks that differ at position `pos` do not share a walk. */
  lemma ConcatDistinct(a: seq<seq<nat>>, b: seq<seq<nat>>, pos: nat, x: nat)
    requires forall i, j :: 0 <= i < j < |a| ==> a[i] != a[j]
    requires forall i, j :: 0 <= i < j < |b| ==> b[i] != b[j]
    requires forall k :: 0 <= k < |a| ==> |a[k]| > pos && a[k][pos] == x
    requires forall k :: 0 <= k < |b| ==> |b[k]| > pos && b[k][pos] != x
    ensures forall i, j :: 0 <= i < j < |a + b| ==> (a + b)[i] != (a + b)[j]
  {
    var r := a + b;
    forall i, j | 0 <= i < j < |r| ensures r[i] != r[j] {
      if j < |a| {
        assert r[i] == a[i] && r[j] == a[j];
      } else if i >= |a| {
        assert r[i] == b[i - |a|] && r[j] == b[j - |a|];
      } else {
        assert r[i] == a[i] && r[j] == b[j - |a|];
      }
    }
  }

  /** Two walks from parentless nodes that end at the same node are the same walk. */
  lemma {:induction false} ChainUnique(nodes: seq<Node>, a: seq<nat>, b: seq<nat>)
    requires Shaped(nodes) && Chain(nodes, a) && Chain(nodes, b)
    requires Detached(nodes, a[0]) && Detached(nodes, b[0])
    requires a[|a| - 1] == b[|b| - 1]
    ensures a == b
    decreases |a|
  {
    var la, lb := |a|, |b|;
    assert lb > 1 ==> b[lb - 1] in nodes[b[lb - 2]].children;
    assert la > 1 ==> a[la - 1] in nodes[a[la - 2]].children;
    if la > 1 && lb > 1 {
      var pa, pb := a[la - 2], b[lb - 2];
      var ia :| 0 <= ia < |nodes[pa].children| && nodes[pa].children[ia] == a[la - 1];
      var ib :| 0 <= ib < |nodes[pb].children| && nodes[pb].children[ib] == b[lb - 1];
      assert pa == pb;
      ChainUnique(nodes, a[..la - 1], b[..lb - 1]);
      assert a == a[..la - 1] + [a[la - 1]];
      assert b == b[..lb - 1] + [b[lb - 1]];
    }
  }

  /** From a parentless root, every enumerated path is a root-to-leaf walk starting at the root. */
  lemma PathsFromRoot(nodes: seq<Node>, root: nat)
    requires Shaped(nodes) && root < |nodes| && Detached(nodes, root)
    ensures var paths := FindLeafSegmentPaths(nodes, root, []);
      forall k :: 0 <= k < |paths| ==> RootLeafChain(nodes, paths[k]) && paths[k][0] == root
  {
    assert [] + [root] == [root];
    var paths := FindLeafSegmentPaths(nodes, root, []);
    LeafPathsSound(nodes, root, []);
    forall k | 0 <= k < |paths| ensures RootLeafChain(nodes, paths[k]) && paths[k][0] == root {
      assert ExtendsToLeaf(nodes, [root], paths[k]);
      assert paths[k][..1] == [root];
    }
  }

  /** From a parentless root, every root-to-leaf walk is among the enumerated paths. */
  lemma EveryLeafHasPath(nodes: seq<Node>, root: nat, c: seq<nat>)
    requires Shaped(nodes) && root < |nodes| && Detached(nodes, root)
    requires RootLeafChain(nodes, c) && c[0] == root
    ensures c in FindLeafSegmentPaths(nodes, root, [])
  {
    assert [] + [root] == [root];
    assert c[..1] == [root];
    LeafPathsComplete(nodes, root, [], c);
  }

  /** From a parentless root, no two enumerated paths end at the same leaf. */
  lemma PathsEndAtDistinctLeaves(nodes: seq<Node>, root: nat, i: nat, j: nat)
    requires Shaped(nodes) && root < |nodes| && Detached(nodes, root)
    requires i < |FindLeafSegmentPaths(nodes, root, [])| && j < |FindLeafSegmentPaths(nodes, root, [])|
    requires Last(FindLeafSegmentPaths(nodes, root, [])[i]) == Last(FindLeafSegmentPaths(nodes, root, [])[j])
    ensures i == j
  {
    var paths := FindLeafSegmentPaths(nodes, root, []);
    PathsFromRoot(nodes, root);
    assert [] + [root] == [root];
    LeafPathsDistinct(nodes, root, []);
    ChainUnique(nodes, paths[i], paths[j]);
  }

  function Last(c: seq<nat>): nat
  {
    if c == [] then 0 else c[|c| - 1]
  }

  /**
   * The segment objects of every trace built so far, with the children
   * appended to each. `attached` records the nodes already appended as
   * someone's child; the builder never appends a node twice.
   */
  class SegmentArena {
    var nodes: seq<Node>
    ghost var attached: set<nat>

    ghost predicate Valid()
      reads this
    {
      Shaped(nodes) &&
      (forall p, i :: 0 <= p < |nodes| && 0 <= i < |nodes[p].children| ==> nodes[p].children[i] in attached) &&
      (forall c :: c in attached ==> c < |nodes|)
    }

    constructor ()
      ensures Valid() && nodes == [] && attached == {}
    {
      nodes := [];
      attached := {};
    }

    /** Adds the segments of one trace as fresh childless nodes, in order. */
    method AddSegments(segs: seq<Segment>) returns (base: nat)
      requires Valid()
      modifies this
      ensures Valid()
      ensures base == old(|nodes|) && |nodes| == base + |segs|
      ensures nodes[..base] == old(nodes)
      ensures forall j :: 0 <= j < |segs| ==> nodes[base + j] == Node(segs[j], [])
      ensures attached == old(attached)
    {
      base := |nodes|;
      nodes := nodes + seq(|segs|, j requires 0 <= j < |segs| => Node(segs[j], []));
      assert nodes[..base] == old(nodes);
    }

    /** `InsertSegmentChild`: appends `child` to the end of the children of `parent`. */
    method InsertSegmentChild(parent: nat, child: nat)
      requires Valid() && parent < |nodes| && child < |nodes| && child !in attached
      modifies this
      ensures Valid()
      ensures |nodes| == old(|nodes|)
      ensures nodes[parent] == Node(old(nodes[parent].segment), old(nodes[parent].children) + [child])
      ensures forall i :: 0 <= i < |nodes| && i != parent ==> nodes[i] == old(nodes[i])
      ensures Grows(old(nodes), nodes)
      ensures attached == old(attached) + {child}
    {
      var old_nodes := nodes;
      nodes := nodes[parent := Node(nodes[parent].segment, nodes[parent].children + [child])];
      attached := attached + {child};
      forall p, i, q, j |
        0 <= p < |nodes| && 0 <= i < |nodes[p].children| &&
        0 <= q < |nodes| && 0 <= j < |nodes[q].children| &&
        nodes[p].children[i] == nodes[q].children[j]
        ensures p == q && i == j
      {
        assert i < |old_nodes[p].children| ==> nodes[p].children[i] == old_nodes[p].children[i];
        assert j < |old_nodes[q].children| ==> nodes[q].children[j] == old_nodes[q].children[j];
      }
    }
  }

  /** Start times never decrease along the sequence. */
  predicate SortedByStart(s: seq<Segment>)
  {
    forall i, j :: 0 <= i < j < |s| ==> s[i].startTime <= s[j].startTime
  }

  /** One of the orders `sort.Slice` may produce: sorted by start time, same segments. */
  predicate SortedPermutation(sorted: seq<Segment>, segs: seq<Segment>)
  {
    SortedByStart(sorted) && multiset(sorted) == multiset(segs)
  }

  function InsertByStart(x: Segment, s: seq<Segment>): seq<Segment>
  {
    if s == [] then [x]
    else if x.startTime <= s[0].startTime then [x] + s
    else [s[0]] + InsertByStart(x, s[1..])
  }

  /** An insertion sort: one witness that a sorted order exists. */
  function SortByStartTime(s: seq<Segment>): seq<Segment>
  {
    if s == [] then [] else InsertByStart(s[0], SortByStartTime(s[1..]))
  }

  lemma InsertByStartCorrect(x: Segment, s: seq<Segment>)
    requires SortedByStart(s)
    ensures SortedByStart(InsertByStart(x, s))
    ensures multiset(InsertByStart(x, s)) == multiset(s) + multiset{x}
    ensures |InsertByStart(x, s)| == |s| + 1
  {
    InsertByStartElements(x, s);
    InsertByStartSorted(x, s);
  }

  lemma {:induction false} InsertByStartElements(x: Segment, s: seq<Segment>)
    ensures multiset(InsertByStart(x, s)) == multiset(s) + multiset{x}
    ensures |InsertByStart(x, s)| == |s| + 1
    decreases |s|
  {
    if s != [] && x.startTime > s[0].startTime {
      InsertByStartElements(x, s[1..]);
      assert s == [s[0]] + s[1..];
    }
  }

  lemma {:induction false} InsertByStartSorted(x: Segment, s: seq<Segment>)
    requires SortedByStart(s)
    ensures SortedByStart(InsertByStart(x, s))
    decreases |s|
  {
    if s != [] && x.startTime > s[0].startTime {
      var t := InsertByStart(x, s[1..]);
      InsertByStartSorted(x, s[1..]);
      InsertByStartElements(x, s[1..]);
      var r := InsertByStart(x, s);
      assert r == [s[0]] + t;
      forall j | 0 <= j < |t| ensures s[0].startTime <= t[j].startTime {
        assert t[j] in multiset(t);
        if t[j] != x {
          assert t[j] in multiset(s[1..]);
          var k :| 0 <= k < |s[1..]| && s[1..][k] == t[j];
          assert s[k + 1] == t[j];
        }
      }
    }
  }

  lemma {:induction false} SortByStartTimeCorrect(s: seq<Segment>)
    ensures SortedPermutation(SortByStartTime(s), s)
    decreases |s|
  {
    if s != [] {
      SortByStartTimeCorrect(s[1..]);
      InsertByStartCorrect(s[0], SortByStartTime(s[1..]));
      assert s == [s[0]] + s[1..];
    }
  }

  /** The first segment of any sorted order is a segment of the trace with the earliest start time. */
  lemma EarliestFirst(sorted: seq<Segment>, segs: seq<Segment>)
    requires SortedPermutation(sorted, segs) && segs != []
    ensures |sorted| == |segs| && sorted[0] in segs
    ensures forall k :: 0 <= k < |segs| ==> sorted[0].startTime <= segs[k].startTime
  {
    assert |sorted| == |multiset(sorted)| == |multiset(segs)| == |segs|;
    assert sorted[0] in multiset(sorted);
    forall k | 0 <= k < |segs| ensures sorted[0].startTime <= segs[k].startTime {
      assert segs[k] in multiset(segs);
      assert segs[k] in sorted;
    }
  }

  /**
   * The reference for the id map: the position of the last segment that
   * answers to `id`, as its own id or as the id of a nested subsegment.
   */
  function LastOwner(segs: seq<Segment>, id: string): (r: Option<nat>)
    ensures r.Some? ==> r.value < |segs|
  {
    if segs == [] then None
    else if id in OwnIds(segs[|segs| - 1]) then Some(|segs| - 1)
    else LastOwner(segs[..|segs| - 1], id)
  }

  /** `LastOwner` finds the last segment answering to `id`, and none when no segment does. */
  lemma {:induction false} LastOwnerSpec(segs: seq<Segment>, id: string)
    ensures LastOwner(segs, id).Some? ==> (id in OwnIds(segs[LastOwner(segs, id).value]) &&
      forall j :: LastOwner(segs, id).value < j < |segs| ==> id !in OwnIds(segs[j]))
    ensures LastOwner(segs, id).None? <==> forall j :: 0 <= j < |segs| ==> id !in OwnIds(segs[j])
    decreases |segs|
  {
    if segs != [] && id !in OwnIds(segs[|segs| - 1]) {
      var init := segs[..|segs| - 1];
      LastOwnerSpec(init, id);
      assert forall j :: 0 <= j < |init| ==> init[j] == segs[j];
    }
  }

  /** `CreateSubSegIdtoSegMap`: every nested subsegment id, at any depth, to `owner`. */
  method CreateSubSegIdToSegMap(subs: seq<Subsegment>, owner: nat) returns (m: map<string, nat>)
    ensures m.Keys == SubIds(subs)
    ensures forall k :: k in m ==> m[k] == owner
    decreases subs
  {
    m := map[];
    var i := 0;
    while i < |subs|
      invariant 0 <= i <= |subs|
      invariant m.Keys == SubIds(subs[..i])
      invariant forall k :: k in m ==> m[k] == owner
    {
      assert subs[..i + 1][..i] == subs[..i];
      m := m[subs[i].id := owner];
      if subs[i].subsegments != [] {
        var inner := CreateSubSegIdToSegMap(subs[i].subsegments, owner);
        m := m + inner;
      }
      i := i + 1;
    }
    assert subs[..i] == subs;
  }

  /**
   * `CreateSegIdtoSegMap`: maps every id a segment answers to onto that
   * segment's node (`base + position`); a later segment wins over an
   * earlier one that answers to the same id.
   */
  method CreateSegIdToSegMap(segs: seq<Segment>, base: nat) returns (m: map<string, nat>)
    ensures forall id :: id in m <==> LastOwner(segs, id).Some?
    ensures forall id :: id in m ==> m[id] == base + LastOwner(segs, id).value
  {
    m := map[];
    var i := 0;
    while i < |segs|
      invariant 0 <= i <= |segs|
      invariant forall id :: id in m <==> LastOwner(segs[..i], id).Some?
      invariant forall id :: id in m ==> m[id] == base + LastOwner(segs[..i], id).value
    {
      var sub := CreateSubSegIdToSegMap(segs[i].subsegments, base + i);
      SegIdMapStep(segs, base, i, m, sub, m[segs[i].id := base + i] + sub);
      m := m[segs[i].id := base + i];
      m := m + sub;
      i := i + 1;
    }
    assert segs[..i] == segs;
  }

  /** One round of `CreateSegIdtoSegMap`: segment `i` becomes the last owner of all its ids. */
  lemma SegIdMapStep(segs: seq<Segment>, base: nat, i: nat, m: map<string, nat>, sub: map<string, nat>,
                     m': map<string, nat>)
    requires i < |segs|
    requires forall id :: id in m <==> LastOwner(segs[..i], id).Some?
    requires forall id :: id in m ==> m[id] == base + LastOwner(segs[..i], id).value
    requires sub.Keys == SubIds(segs[i].subsegments) && forall k :: k in sub ==> sub[k] == base + i
    requires m' == m[segs[i].id := base + i] + sub
    ensures forall id :: id in m' <==> LastOwner(segs[..i + 1], id).Some?
    ensures forall id :: id in m' ==> m'[id] == base + LastOwner(segs[..i + 1], id).value
  {
    assert segs[..i + 1][..i] == segs[..i];
    assert segs[..i + 1][i] == segs[i];
  }

  /** Trace ids of the `child` links in `links`. */
  function ChildLinkIds(links: seq<Link>): set<string>
  {
    set l | l in links && l.referenceType == "child" :: l.traceId
  }

  /** Trace ids of the `child` links of the direct subsegments in `subs`. */
  function SubsegmentChildLinkIds(subs: seq<Subsegment>): set<string>
  {
    if subs == [] then {}
    else SubsegmentChildLinkIds(subs[..|subs| - 1]) + ChildLinkIds(subs[|subs| - 1].links)
  }

  /** The linked trace ids `getLinkedTraces` records for a segment. */
  function SegmentChildLinkIds(s: Segment): set<string>
  {
    ChildLinkIds(s.links) + SubsegmentChildLinkIds(s.subsegments)
  }

  /**
   * `getLinkedTraces`: records `node` as the linking segment of every trace
   * its own child links or its direct subsegments' child links name,
   * replacing an earlier entry for the same trace.
   */
  method GetLinkedTraces(s: Segment, node: nat, m: map<string, nat>) returns (m': map<string, nat>)
    ensures m'.Keys == m.Keys + SegmentChildLinkIds(s)
    ensures forall t :: t in SegmentChildLinkIds(s) ==> m'[t] == node
    ensures forall t :: t in m && t !in SegmentChildLinkIds(s) ==> m'[t] == m[t]
    ensures m' == Overridden(m, SegmentChildLinkIds(s), node)
  {
    m' := RecordChildLinks(s.links, node, m);
    var k := 0;
    while k < |s.subsegments|
      invariant 0 <= k <= |s.subsegments|
      invariant m'.Keys == m.Keys + ChildLinkIds(s.links) + SubsegmentChildLinkIds(s.subsegments[..k])
      invariant forall t :: t in ChildLinkIds(s.links) + SubsegmentChildLinkIds(s.subsegments[..k]) ==> m'[t] == node
      invariant forall t :: t in m && t !in ChildLinkIds(s.links) + SubsegmentChildLinkIds(s.subsegments[..k]) ==> m'[t] == m[t]
    {
      assert s.subsegments[..k + 1][..k] == s.subsegments[..k];
      m' := RecordChildLinks(s.subsegments[k].links, node, m');
      k := k + 1;
    }
    assert s.subsegments[..k] == s.subsegments;
    UpdateAsUnion(m, m', SegmentChildLinkIds(s), node);
  }

  /** `m` with every key of `keys` (re)assigned to `v`. */
  function Overridden(m: map<string, nat>, keys: set<string>, v: nat): map<string, nat>
  {
    m + map t | t in keys :: v
  }

  /** A map that agrees with `m` off `keys` and maps every key of `keys` to `v` is `m` overridden on `keys`. */
  lemma UpdateAsUnion(m: map<string, nat>, m': map<string, nat>, keys: set<string>, v: nat)
    requires m'.Keys == m.Keys + keys
    requires forall t :: t in keys ==> m'[t] == v
    requires forall t :: t in m && t !in keys ==> m'[t] == m[t]
    ensures m' == Overridden(m, keys, v)
  {
  }

  /** One loop of `getLinkedTraces`: records `node` for the trace of every `child` link. */
  method RecordChildLinks(links: seq<Link>, node: nat, m: map<string, nat>) returns (m': map<string, nat>)
    ensures m'.Keys == m.Keys + ChildLinkIds(links)
    ensures forall t :: t in ChildLinkIds(links) ==> m'[t] == node
    ensures forall t :: t in m && t !in ChildLinkIds(links) ==> m'[t] == m[t]
  {
    m' := m;
    var i := 0;
    while i < |links|
      invariant 0 <= i <= |links|
      invariant m'.Keys == m.Keys + ChildLinkIds(links[..i])
      invariant forall t :: t in ChildLinkIds(links[..i]) ==> m'[t] == node
      invariant forall t :: t in m && t !in ChildLinkIds(links[..i]) ==> m'[t] == m[t]
    {
      assert links[..i + 1] == links[..i] + [links[i]];
      if links[i].referenceType == "child" {
        m' := m'[links[i].traceId := node];
      }
      i := i + 1;
    }
    assert links[..i] == links;
  }

  /** The error `buildTree` reports for a segment whose parent id no segment answers to. */
  function NoParentMessage(id: string): string
  {
    "found a segment " + id + " with no parent"
  }

  /** Segment `j` has a parent id that no segment of the trace answers to. */
  predicate Orphan(segs: seq<Segment>, j: nat)
    requires j < |segs|
  {
    segs[j].parentId.Some? && LastOwner(segs, segs[j].parentId.value).None?
  }

  /** The first orphan at or after position `from`. */
  function FirstOrphan(segs: seq<Segment>, from: nat): (r: Option<nat>)
    ensures r.Some? ==> (from <= r.value < |segs| && Orphan(segs, r.value) &&
      forall k :: from <= k < r.value ==> !Orphan(segs, k))
    ensures r.None? ==> forall k :: from <= k < |segs| ==> !Orphan(segs, k)
    decreases |segs| - from
  {
    if from >= |segs| then None
    else if Orphan(segs, from) then Some(from)
    else FirstOrphan(segs, from + 1)
  }

  /**
   * The linking segment recorded for each linked trace by the attach loop
   * over positions 1 .. upto-1: each attached segment's child links, a
   * later segment replacing an earlier one.
   */
  function LinkedTargets(segs: seq<Segment>, base: nat, upto: nat): map<string, nat>
    requires upto <= |segs|
  {
    if upto <= 1 then map[]
    else
      var m := LinkedTargets(segs, base, upto - 1);
      var s := segs[upto - 1];
      if s.parentId.Some? then Overridden(m, SegmentChildLinkIds(s), base + upto - 1) else m
  }

  /** The linked traces recorded by the attach loop before position `upto`. */
  function LinkedSoFar(fetchLinked: bool, segs: seq<Segment>, base: nat, upto: nat): map<string, nat>
    requires upto <= |segs|
  {
    if fetchLinked then LinkedTargets(segs, base, upto) else map[]
  }

  /** The `getLinkedTraces` call of the attach loop for an attached segment, when links are followed. */
  method RecordLinked(fetchLinked: bool, segs: seq<Segment>, base: nat, i: nat, linked: map<string, nat>)
    returns (linked': map<string, nat>)
    requires 1 <= i < |segs| && segs[i].parentId.Some?
    requires linked == LinkedSoFar(fetchLinked, segs, base, i)
    ensures linked' == LinkedSoFar(fetchLinked, segs, base, i + 1)
  {
    LinkedSoFarStep(fetchLinked, segs, base, i);
    linked' := linked;
    if fetchLinked {
      linked' := GetLinkedTraces(segs[i], base + i, linked);
    }
  }

  lemma LinkedSoFarStep(fetchLinked: bool, segs: seq<Segment>, base: nat, i: nat)
    requires 1 <= i < |segs|
    ensures fetchLinked && segs[i].parentId.Some? ==>
      LinkedSoFar(fetchLinked, segs, base, i + 1) ==
      Overridden(LinkedSoFar(fetchLinked, segs, base, i), SegmentChildLinkIds(segs[i]), base + i)
    ensures !(fetchLinked && segs[i].parentId.Some?) ==>
      LinkedSoFar(fetchLinked, segs, base, i + 1) == LinkedSoFar(fetchLinked, segs, base, i)
  {
  }

  /**
   * A trace is linked iff some non-root segment with a parent id has a
   * `child` link to it, and the recorded linking segment is the last
   * such segment.
   */
  lemma {:induction false} LinkedTargetsSpec(segs: seq<Segment>, base: nat, upto: nat, t: string)
    requires upto <= |segs|
    ensures t in LinkedTargets(segs, base, upto) <==>
      exists j :: 1 <= j < upto && segs[j].parentId.Some? && t in SegmentChildLinkIds(segs[j])
    ensures t in LinkedTargets(segs, base, upto) ==>
      var j := LinkedTargets(segs, base, upto)[t] - base;
      1 <= j < upto && segs[j].parentId.Some? && t in SegmentChildLinkIds(segs[j]) &&
      forall k :: j < k < upto && segs[k].parentId.Some? ==> t !in SegmentChildLinkIds(segs[k])
    decreases upto
  {
    if upto > 1 {
      LinkedTargetsSpec(segs, base, upto - 1, t);
    }
  }

  /** `b` is `a` after nodes and children were appended: same segments, child lists only extended. */
  predicate Grows(a: seq<Node>, b: seq<Node>)
  {
    |a| <= |b| &&
    forall p :: 0 <= p < |a| ==> b[p].segment == a[p].segment && a[p].children <= b[p].children
  }

  /** Every segment at positions 1 .. upto-1 that has a parent id hangs under the segment owning it. */
  predicate Hung(nodes: seq<Node>, segs: seq<Segment>, base: nat, upto: nat)
    requires base + |segs| <= |nodes| && upto <= |segs|
  {
    forall j :: 1 <= j < upto ==> HungAt(nodes, segs, base, j)
  }

  /** Segment `j`, if it has a parent id, is a child of the node of the last segment answering to it. */
  predicate HungAt(nodes: seq<Node>, segs: seq<Segment>, base: nat, j: nat)
    requires base + |segs| <= |nodes| && j < |segs|
  {
    segs[j].parentId.Some? ==>
      LastOwner(segs, segs[j].parentId.value).Some? &&
      base + j in nodes[base + LastOwner(segs, segs[j].parentId.value).value].children
  }

  lemma GrowsTrans(a: seq<Node>, b: seq<Node>, c: seq<Node>)
    requires Grows(a, b) && Grows(b, c)
    ensures Grows(a, c)
  {
  }

  lemma HungGrows(a: seq<Node>, b: seq<Node>, segs: seq<Segment>, base: nat, upto: nat)
    requires base + |segs| <= |a| && upto <= |segs|
    requires Grows(a, b) && Hung(a, segs, base, upto)
    ensures Hung(b, segs, base, upto)
  {
    forall j | 1 <= j < upto
      ensures HungAt(b, segs, base, j)
    {
      assert HungAt(a, segs, base, j);
      if segs[j].parentId.Some? {
        var p := base + LastOwner(segs, segs[j].parentId.value).value;
        assert a[p].children <= b[p].children;
      }
    }
  }

  lemma HungStep(nodes: seq<Node>, segs: seq<Segment>, base: nat, i: nat)
    requires base + |segs| <= |nodes| && i < |segs| && Hung(nodes, segs, base, i)
    requires HungAt(nodes, segs, base, i)
    ensures Hung(nodes, segs, base, i + 1)
  {
  }

  /**
   * The state of the attach loop before position `i`: child lists only
   * grew, and only within the new nodes; every node attached since the loop
   * began is one of positions 1 .. i-1 with a parent id; those segments hang
   * under their owners.
   */
  predicate Attaching(nodes: seq<Node>, attached: set<nat>, attached0: set<nat>, start: seq<Node>,
                      segs: seq<Segment>, base: nat, i: nat)
  {
    |start| == base + |segs| && 1 <= i <= |segs| &&
    |nodes| == |start| && Grows(start, nodes) && nodes[..base] == start[..base] &&
    attached0 <= attached &&
    (forall c :: c in attached && c !in attached0 ==> base < c < base + i) &&
    (forall j :: 1 <= j < i && segs[j].parentId.None? ==> base + j !in attached) &&
    Hung(nodes, segs, base, i)
  }

  lemma AttachingSkip(nodes: seq<Node>, attached: set<nat>, attached0: set<nat>, start: seq<Node>,
                      segs: seq<Segment>, base: nat, i: nat)
    requires Attaching(nodes, attached, attached0, start, segs, base, i)
    requires i < |segs| && segs[i].parentId.None?
    requires base + i !in attached0
    ensures Attaching(nodes, attached, attached0, start, segs, base, i + 1)
  {
    HungStep(nodes, segs, base, i);
  }

  /** One attach step for a segment whose parent id is owned: hang it under the owner. */
  method HangAt(arena: SegmentArena, segs: seq<Segment>, base: nat, i: nat, owner: nat,
                ghost start: seq<Node>, ghost attached0: set<nat>)
    requires arena.Valid() && Attaching(arena.nodes, arena.attached, attached0, start, segs, base, i)
    requires i < |segs| && segs[i].parentId.Some? && LastOwner(segs, segs[i].parentId.value).Some?
    requires owner == base + LastOwner(segs, segs[i].parentId.value).value
    requires forall c :: base <= c < base + |segs| ==> c !in attached0
    modifies arena
    ensures arena.Valid() && Attaching(arena.nodes, arena.attached, attached0, start, segs, base, i + 1)
  {
    ghost var before := arena.nodes;
    ghost var attachedBefore := arena.attached;
    assert base + i !in arena.attached;
    arena.InsertSegmentChild(owner, base + i);
    assert arena.nodes[..base] == before[..base];
    AttachingHang(before, arena.nodes, attachedBefore, attached0, start, segs, base, i, owner);
  }

  lemma AttachingHang(before: seq<Node>, after: seq<Node>, attached: set<nat>, attached0: set<nat>,
                      start: seq<Node>, segs: seq<Segment>, base: nat, i: nat, owner: nat)
    requires Attaching(before, attached, attached0, start, segs, base, i)
    requires i < |segs| && segs[i].parentId.Some? && LastOwner(segs, segs[i].parentId.value).Some?
    requires owner == base + LastOwner(segs, segs[i].parentId.value).value
    requires Grows(before, after) && |after| == |before| && after[..base] == before[..base]
    requires base + i in after[owner].children
    ensures Attaching(after, attached + {base + i}, attached0, start, segs, base, i + 1)
  {
    HungGrows(before, after, segs, base, i);
    GrowsTrans(start, before, after);
    HungStep(after, segs, base, i);
    assert after[..base] == start[..base];
  }

  /** A node that was never appended as a child is nobody's child. */
  lemma NotAttachedIsDetached(arena: SegmentArena, c: nat)
    requires arena.Valid() && c !in arena.attached
    ensures Detached(arena.nodes, c)
  {
  }

  /**
   * The attach loop of `buildTree` (every segment but the first): a segment
   * with a parent id is appended to the node owning that id, and, when
   * linked traces are followed, its child links are recorded; the first
   * segment whose parent id nobody owns stops the build.
   */
  method AttachToParents(arena: SegmentArena, segs: seq<Segment>, base: nat, idMap: map<string, nat>, fetchLinked: bool)
    returns (r: Outcome<string>, linked: map<string, nat>)
    requires arena.Valid()
    requires |arena.nodes| == base + |segs| && |segs| >= 1
    requires forall j :: 0 <= j < |segs| ==> arena.nodes[base + j] == Node(segs[j], []) && base + j !in arena.attached
    requires forall id :: id in idMap <==> LastOwner(segs, id).Some?
    requires forall id :: id in idMap ==> idMap[id] == base + LastOwner(segs, id).value
    modifies arena
    ensures arena.Valid()
    ensures |arena.nodes| == base + |segs| && arena.nodes[..base] == old(arena.nodes[..base])
    ensures forall j :: 0 <= j < |segs| ==> arena.nodes[base + j].segment == segs[j]
    ensures old(arena.attached) <= arena.attached
    ensures forall c :: c in arena.attached && c !in old(arena.attached) ==> base < c < base + |segs|
    ensures r == if FirstOrphan(segs, 1).Some? then Fail(NoParentMessage(segs[FirstOrphan(segs, 1).value].id)) else Pass
    ensures r.Pass? ==> Hung(arena.nodes, segs, base, |segs|)
    ensures forall j :: 1 <= j < |segs| && segs[j].parentId.None? ==> base + j !in arena.attached
    ensures base !in arena.attached
    ensures r.Pass? ==> linked == LinkedSoFar(fetchLinked, segs, base, |segs|)
  {
    linked := map[];
    ghost var start := arena.nodes;
    ghost var attached0 := arena.attached;
    forall c | base <= c < base + |segs| ensures c !in attached0 {
      assert arena.nodes[base + (c - base)] == Node(segs[c - base], []);
    }
    assert forall j :: 0 <= j < |segs| ==> start[base + j].segment == segs[j];
    var i := 1;
    while i < |segs|
      invariant arena.Valid() && Attaching(arena.nodes, arena.attached, attached0, start, segs, base, i)
      invariant FirstOrphan(segs, 1) == FirstOrphan(segs, i)
      invariant linked == LinkedSoFar(fetchLinked, segs, base, i)
    {
      var attachedOne;
      attachedOne, linked := AttachOne(arena, segs, base, idMap, fetchLinked, i, linked, start, attached0);
      if !attachedOne {
        AttachingFrame(arena.nodes, arena.attached, attached0, start, segs, base, i);
        return Fail(NoParentMessage(segs[i].id)), linked;
      }
      i := i + 1;
    }
    assert i == |segs|;
    AttachingFrame(arena.nodes, arena.attached, attached0, start, segs, base, i);
    r := Pass;
  }

  /**
   * One round of the attach loop, at position `i`: an orphan stops the loop
   * with the arena untouched; otherwise the segment is hung under its owner
   * (when it has a parent id) and its links are recorded.
   */
  method AttachOne(arena: SegmentArena, segs: seq<Segment>, base: nat, idMap: map<string, nat>, fetchLinked: bool,
                   i: nat, linked: map<string, nat>, ghost start: seq<Node>, ghost attached0: set<nat>)
    returns (ok: bool, linked': map<string, nat>)
    requires arena.Valid() && Attaching(arena.nodes, arena.attached, attached0, start, segs, base, i) && i < |segs|
    requires forall c :: base <= c < base + |segs| ==> c !in attached0
    requires forall id :: id in idMap <==> LastOwner(segs, id).Some?
    requires forall id :: id in idMap ==> idMap[id] == base + LastOwner(segs, id).value
    requires linked == LinkedSoFar(fetchLinked, segs, base, i)
    modifies arena
    ensures arena.Valid()
    ensures ok == !Orphan(segs, i)
    ensures ok ==> Attaching(arena.nodes, arena.attached, attached0, start, segs, base, i + 1)
    ensures ok ==> linked' == LinkedSoFar(fetchLinked, segs, base, i + 1)
    ensures !ok ==> arena.nodes == old(arena.nodes) && arena.attached == old(arena.attached)
  {
    var seg := segs[i];
    linked' := linked;
    if seg.parentId.Some? {
      if seg.parentId.value in idMap {
        var owner := idMap[seg.parentId.value];
        HangAt(arena, segs, base, i, owner, start, attached0);
        linked' := RecordLinked(fetchLinked, segs, base, i, linked);
        ok := true;
      } else {
        ok := false;
      }
    } else {
      AttachingSkip(arena.nodes, arena.attached, attached0, start, segs, base, i);
      LinkedSoFarStep(fetchLinked, segs, base, i);
      ok := true;
    }
  }

  /** What the attach loop leaves unchanged, at whichever position it stops. */
  lemma AttachingFrame(nodes: seq<Node>, attached: set<nat>, attached0: set<nat>, start: seq<Node>,
                       segs: seq<Segment>, base: nat, i: nat)
    requires Attaching(nodes, attached, attached0, start, segs, base, i)
    requires forall c :: base <= c < base + |segs| ==> c !in attached0
    requires forall j :: 0 <= j < |segs| ==> start[base + j].segment == segs[j]
    ensures |nodes| == base + |segs| && nodes[..base] == start[..base]
    ensures forall j :: 0 <= j < |segs| ==> nodes[base + j].segment == segs[j]
    ensures attached0 <= attached
    ensures forall c :: c in attached && c !in attached0 ==> base < c < base + |segs|
    ensures forall j :: 1 <= j < |segs| && segs[j].parentId.None? ==> base + j !in attached
    ensures base !in attached
  {
    forall j | 0 <= j < |segs| ensures nodes[base + j].segment == segs[j] {
      assert start[base + j].segment == segs[j];
    }
  }


  /**
   * A built tree: the node arena as it stood when the build returned, the
   * root node, the root-to-leaf paths, the trace with its segments in the
   * order the sort left them, and whether the linked-trace budget ran out.
   */
  datatype Tree = Tree(
    nodes: seq<Node>,
    root: nat,
    paths: seq<seq<nat>>,
    sourceTrace: Trace,
    linkedTraceLimitExceeded: bool)

  /** `ids` lists the members of `keys`, each once: one order `maps.Keys` may return. */
  ghost predicate Enumerates(ids: seq<string>, keys: set<string>)
  {
    (forall x :: x in ids <==> x in keys) &&
    forall i, j :: 0 <= i < j < |ids| ==> ids[i] != ids[j]
  }

  /** `maps.Keys`: the keys of a map, each once, in whatever order iteration yields them. */
  method KeysInSomeOrder(keys: set<string>) returns (ids: seq<string>)
    ensures Enumerates(ids, keys)
  {
    ids := [];
    var rest := keys;
    while rest != {}
      invariant forall x :: x in ids <==> x in keys && x !in rest
      invariant rest <= keys
      invariant forall i, j :: 0 <= i < j < |ids| ==> ids[i] != ids[j]
      decreases rest
    {
      var x :| x in rest;
      ids := ids + [x];
      rest := rest - {x};
    }
  }

  /** The error of a failed linked-trace fetch; Go prints the id slice as `[a b c]`. */
  function FetchLinkedMessage(ids: seq<string>, e: string): string
  {
    "failed to fetch linked traces [" + Text.Join(ids, " ") + "] with error: " + e
  }

  /** The linked-trace step runs: links are followed, some were recorded and the shared counter is below the bound. */
  predicate FetchRuns(fetchLinked: bool, linked: map<string, nat>, depth: nat)
  {
    fetchLinked && |linked| > 0 && depth < MaxTreeDepth
  }

  /** `r` is the error of a failed fetch of the traces in `linked`, their ids in some map order. */
  ghost predicate FetchFailureReported(r: Result<Tree, GoError>, linked: map<string, nat>,
                                       getTraces: set<string> -> Result<map<string, Trace>, string>)
  {
    getTraces(linked.Keys).Err? && r.Err? && r.error.Failure? &&
    exists ids :: Enumerates(ids, linked.Keys) && r.error.message == FetchLinkedMessage(ids, getTraces(linked.Keys).error)
  }

  function BuildTreeMessage(traceId: string): string
  {
    "failed to build trace tree " + traceId + " with error: "
  }

  /**
   * Every child appended below the nodes `base .. n0-1` from `n0` on is the
   * root of a linked trace, hung under the segment recorded for that trace.
   */
  predicate LinkedRootsHung(nodes: seq<Node>, base: nat, n0: nat, linked: map<string, nat>)
  {
    n0 <= |nodes| &&
    forall p, c :: base <= p < n0 && c in nodes[p].children && n0 <= c ==> LinkedRootUnder(nodes, c, linked, p)
  }

  /** Node `c` is the root of a trace whose recorded linking segment is `p`. */
  predicate LinkedRootUnder(nodes: seq<Node>, c: nat, linked: map<string, nat>, p: nat)
  {
    c < |nodes| && nodes[c].segment.traceId in linked && linked[nodes[c].segment.traceId] == p
  }

  /** `s` is one of `segs` and none of them starts earlier: a possible root after the sort. */
  predicate Earliest(s: Segment, segs: seq<Segment>)
  {
    s in segs && forall k :: 0 <= k < |segs| ==> s.startTime <= segs[k].startTime
  }

  /**
   * The built `trace` is hung: some node from `n0` on holds an earliest
   * segment of `trace` and is a child of the segment recorded for that
   * segment's trace id.
   */
  predicate LinkedTraceHung(nodes: seq<Node>, n0: nat, linked: map<string, nat>, trace: Trace)
  {
    exists c :: n0 <= c < |nodes| && Earliest(nodes[c].segment, trace.segments) &&
      nodes[c].segment.traceId in linked && linked[nodes[c].segment.traceId] < |nodes| &&
      c in nodes[linked[nodes[c].segment.traceId]].children
  }

  /**
   * What the linked-trace step of a build over nodes `base .. n0-1` left:
   * when it ran, the fetch succeeded and every fetched trace was built and
   * hung under its linking segment; when it did not run, those nodes have
   * no child beyond the trace's own.
   */
  predicate LinkedFetched(nodes: seq<Node>, base: nat, n0: nat, linked: map<string, nat>, fetchLinked: bool,
                          depth: nat, getTraces: set<string> -> Result<map<string, Trace>, string>)
  {
    if fetchLinked && |linked| > 0 && depth < MaxTreeDepth then
      getTraces(linked.Keys).Ok? &&
      forall tid :: tid in getTraces(linked.Keys).value ==>
        LinkedTraceHung(nodes, n0, linked, getTraces(linked.Keys).value[tid])
    else
      forall p, c :: base <= p < n0 && p < |nodes| && c in nodes[p].children ==> c < n0
  }

  /** Appending nodes and children keeps every hung trace hung. */
  lemma LinkedTracesGrow(a: seq<Node>, b: seq<Node>, n0: nat, linked: map<string, nat>,
                         fetched: map<string, Trace>, remaining: set<string>)
    requires Grows(a, b)
    requires forall tid :: tid in fetched && tid !in remaining ==> LinkedTraceHung(a, n0, linked, fetched[tid])
    ensures forall tid :: tid in fetched && tid !in remaining ==> LinkedTraceHung(b, n0, linked, fetched[tid])
  {
    forall tid | tid in fetched && tid !in remaining
      ensures LinkedTraceHung(b, n0, linked, fetched[tid])
    {
      var c :| n0 <= c < |a| && Earliest(a[c].segment, fetched[tid].segments) &&
        a[c].segment.traceId in linked && linked[a[c].segment.traceId] < |a| &&
        c in a[linked[a[c].segment.traceId]].children;
      var p := linked[a[c].segment.traceId];
      var i :| 0 <= i < |a[p].children| && a[p].children[i] == c;
      assert b[p].children[i] == c;
    }
  }

  /** The segment recorded for a linked trace is one of positions 1 .. upto-1. */
  lemma LinkedTargetsRange(segs: seq<Segment>, base: nat, upto: nat)
    requires upto <= |segs|
    ensures forall t :: t in LinkedTargets(segs, base, upto) ==> base < LinkedTargets(segs, base, upto)[t] < base + upto
  {
    forall t | t in LinkedTargets(segs, base, upto)
      ensures base < LinkedTargets(segs, base, upto)[t] < base + upto
    {
      LinkedTargetsSpec(segs, base, upto, t);
    }
  }

  /**
   * `buildTree`: sorts the segments by start time (any order `sort.Slice`
   * may leave, returned as `order`), takes the first as the root, hangs
   * every other segment under the owner of its parent id, and, while the
   * shared `depth` counter is below `MaxTreeDepth`, fetches the linked
   * traces in one call, builds each one and hangs its root under the
   * segment that links to it. The root-to-leaf paths of the result are the
   * enumeration from the root.
   */
  method BuildTree(arena: SegmentArena, source: Trace, fetchLinked: bool,
                   getTraces: set<string> -> Result<map<string, Trace>, string>, depth: nat)
    returns (r: Result<Tree, GoError>, depth': nat, ghost order: seq<Segment>)
    requires arena.Valid() && depth <= MaxTreeDepth
    modifies arena
    ensures arena.Valid()
    ensures depth <= depth' <= MaxTreeDepth && (!fetchLinked ==> depth' == depth)
    ensures old(|arena.nodes|) <= |arena.nodes| && arena.nodes[..old(|arena.nodes|)] == old(arena.nodes)
    ensures forall c :: c in arena.attached && c !in old(arena.attached) ==> old(|arena.nodes|) < c
    ensures source.segments == [] ==> r == Err(Panic(IndexOutOfRange))
    ensures source.segments != [] ==> SortedPermutation(order, source.segments)
    ensures source.segments != [] && FirstOrphan(order, 1).Some? ==>
      r == Err(Failure(NoParentMessage(order[FirstOrphan(order, 1).value].id)))
    ensures r.Ok? ==> source.segments != [] && FirstOrphan(order, 1).None?
    ensures r.Ok? ==> BuiltTree(r.value, arena.nodes, arena.attached, old(|arena.nodes|), source, order, fetchLinked)
    ensures r.Ok? ==> LinkedFetched(arena.nodes, old(|arena.nodes|), old(|arena.nodes|) + |order|,
                                    LinkedSoFar(fetchLinked, order, old(|arena.nodes|), |order|), fetchLinked, depth, getTraces)
    ensures r.Ok? ==> r.value.linkedTraceLimitExceeded == (depth' >= MaxTreeDepth)
    ensures source.segments != [] && FirstOrphan(order, 1).None? &&
            !FetchRuns(fetchLinked, LinkedSoFar(fetchLinked, order, old(|arena.nodes|), |order|), depth) ==>
      r.Ok?
    ensures source.segments != [] && FirstOrphan(order, 1).None? &&
            FetchRuns(fetchLinked, LinkedSoFar(fetchLinked, order, old(|arena.nodes|), |order|), depth) &&
            getTraces(LinkedSoFar(fetchLinked, order, old(|arena.nodes|), |order|).Keys).Err? ==>
      FetchFailureReported(r, LinkedSoFar(fetchLinked, order, old(|arena.nodes|), |order|), getTraces)
    decreases MaxTreeDepth - depth, 4
  {
    depth' := depth;
    order := [];
    if source.segments == [] {
      return Err(Panic(IndexOutOfRange)), depth', order;
    }
    SortByStartTimeCorrect(source.segments);
    var sorted: seq<Segment> :| SortedPermutation(sorted, source.segments);
    order := sorted;
    EarliestFirst(sorted, source.segments);
    var attachedAll, base, linked := PlaceTrace(arena, sorted, fetchLinked);
    if attachedAll.Fail? {
      return Err(Failure(attachedAll.error)), depth', order;
    }
    r, depth' := LinkTree(arena, source, sorted, base, linked, fetchLinked, getTraces, depth);
  }

  /**
   * The rest of `buildTree` once the segments of `source`, sorted, are
   * attached at `base`: the linked-trace step, then the paths from the root.
   */
  method LinkTree(arena: SegmentArena, source: Trace, sorted: seq<Segment>, base: nat, linked: map<string, nat>,
                  fetchLinked: bool, getTraces: set<string> -> Result<map<string, Trace>, string>, depth: nat)
    returns (r: Result<Tree, GoError>, depth': nat)
    requires arena.Valid() && depth <= MaxTreeDepth && |sorted| >= 1 && |arena.nodes| == base + |sorted|
    requires forall j :: 0 <= j < |sorted| ==> arena.nodes[base + j].segment == sorted[j]
    requires base !in arena.attached
    requires forall j :: 1 <= j < |sorted| && sorted[j].parentId.None? ==> base + j !in arena.attached
    requires Hung(arena.nodes, sorted, base, |sorted|)
    requires linked == LinkedSoFar(fetchLinked, sorted, base, |sorted|)
    requires forall t :: t in linked ==> base <= linked[t] < base + |sorted|
    requires LinkedRootsHung(arena.nodes, base, base + |sorted|, linked)
    modifies arena
    ensures arena.Valid()
    ensures depth <= depth' <= MaxTreeDepth && (!fetchLinked ==> depth' == depth)
    ensures old(|arena.nodes|) <= |arena.nodes| && arena.nodes[..base] == old(arena.nodes[..base])
    ensures forall c :: c in arena.attached && c !in old(arena.attached) ==> base + |sorted| <= c
    ensures r.Ok? ==> BuiltTree(r.value, arena.nodes, arena.attached, base, source, sorted, fetchLinked)
    ensures r.Ok? ==> LinkedFetched(arena.nodes, base, base + |sorted|, linked, fetchLinked, depth, getTraces)
    ensures r.Ok? ==> r.value.linkedTraceLimitExceeded == (depth' >= MaxTreeDepth)
    ensures !FetchRuns(fetchLinked, linked, depth) ==> r.Ok?
    ensures FetchRuns(fetchLinked, linked, depth) && getTraces(linked.Keys).Err? ==>
      FetchFailureReported(r, linked, getTraces)
    decreases MaxTreeDepth - depth, 3
  {
    ghost var placed := arena.nodes;
    var failure;
    failure, depth' := FetchLinkedTrees(arena, linked, base, base + |sorted|, fetchLinked, getTraces, depth);
    if failure.Some? {
      return Err(failure.value), depth';
    }
    NotAttachedIsDetached(arena, base);
    assert [] + [base] == [base];
    var paths := FindLeafSegmentPaths(arena.nodes, base, []);
    r := Ok(Tree(arena.nodes, base, paths, source.(segments := sorted), depth' >= MaxTreeDepth));
    BuiltTreeIntro(r.value, placed, arena.nodes, arena.attached, base, source, sorted, fetchLinked);
  }

  /**
   * The first part of `buildTree` on sorted segments: they become fresh
   * nodes, the id map is built, and the attach loop runs.
   */
  method PlaceTrace(arena: SegmentArena, sorted: seq<Segment>, fetchLinked: bool)
    returns (attachedAll: Outcome<string>, base: nat, linked: map<string, nat>)
    requires arena.Valid() && |sorted| >= 1
    modifies arena
    ensures arena.Valid()
    ensures base == old(|arena.nodes|) && |arena.nodes| == base + |sorted| && arena.nodes[..base] == old(arena.nodes)
    ensures forall j :: 0 <= j < |sorted| ==> arena.nodes[base + j].segment == sorted[j]
    ensures forall c :: c in arena.attached && c !in old(arena.attached) ==> base < c < base + |sorted|
    ensures base !in arena.attached
    ensures forall j :: 1 <= j < |sorted| && sorted[j].parentId.None? ==> base + j !in arena.attached
    ensures attachedAll == if FirstOrphan(sorted, 1).Some? then Fail(NoParentMessage(sorted[FirstOrphan(sorted, 1).value].id)) else Pass
    ensures attachedAll.Pass? ==> Hung(arena.nodes, sorted, base, |sorted|)
    ensures attachedAll.Pass? ==> linked == LinkedSoFar(fetchLinked, sorted, base, |sorted|)
    ensures forall t :: t in linked ==> base <= linked[t] < base + |sorted|
    ensures LinkedRootsHung(arena.nodes, base, base + |sorted|, linked)
  {
    base := arena.AddSegments(sorted);
    var idMap := CreateSegIdToSegMap(sorted, base);
    attachedAll, linked := AttachToParents(arena, sorted, base, idMap, fetchLinked);
    if attachedAll.Pass? {
      LinkedTargetsRange(sorted, base, |sorted|);
    } else {
      linked := map[];
    }
    NoLinkedRootsYet(arena.nodes, base, linked);
  }

  /**
   * The linked-trace step of `buildTree`: when links are followed, some
   * were recorded and the shared counter is below the bound, all linked
   * traces are fetched in one call, the counter goes up, and each fetched
   * trace is built and hung.
   */
  method FetchLinkedTrees(arena: SegmentArena, linked: map<string, nat>, base: nat, n0: nat, fetchLinked: bool,
                          getTraces: set<string> -> Result<map<string, Trace>, string>, depth: nat)
    returns (failure: Option<GoError>, depth': nat)
    requires arena.Valid() && |arena.nodes| == n0 && base < n0 && depth <= MaxTreeDepth
    requires forall t :: t in linked ==> base <= linked[t] < n0
    requires LinkedRootsHung(arena.nodes, base, n0, linked)
    modifies arena
    ensures arena.Valid()
    ensures depth <= depth' <= MaxTreeDepth && (!fetchLinked ==> depth' == depth)
    ensures Grows(old(arena.nodes), arena.nodes) && arena.nodes[..base] == old(arena.nodes[..base])
    ensures forall c :: c in arena.attached && c !in old(arena.attached) ==> n0 <= c
    ensures LinkedRootsHung(arena.nodes, base, n0, linked)
    ensures !(fetchLinked && |linked| > 0 && depth < MaxTreeDepth) ==>
      failure == None && depth' == depth && arena.nodes == old(arena.nodes)
    ensures fetchLinked && |linked| > 0 && depth < MaxTreeDepth && getTraces(linked.Keys).Err? ==>
      failure.Some? && failure.value.Failure? &&
      exists ids :: Enumerates(ids, linked.Keys) &&
        failure.value.message == FetchLinkedMessage(ids, getTraces(linked.Keys).error)
    ensures fetchLinked && |linked| > 0 && depth < MaxTreeDepth && getTraces(linked.Keys).Ok? ==>
      depth' >= depth + 1
    ensures failure.None? ==> LinkedFetched(arena.nodes, base, n0, linked, fetchLinked, depth, getTraces)
    decreases MaxTreeDepth - depth, 2
  {
    depth' := depth;
    failure := None;
    if !(fetchLinked && |linked| > 0 && depth < MaxTreeDepth) {
      forall p, c | base <= p < n0 && p < |arena.nodes| && c in arena.nodes[p].children
        ensures c < n0
      {
        var i :| 0 <= i < |arena.nodes[p].children| && arena.nodes[p].children[i] == c;
      }
    } else {
      var fetched := getTraces(linked.Keys);
      if fetched.Err? {
        var ids := KeysInSomeOrder(linked.Keys);
        failure := Some(Failure(FetchLinkedMessage(ids, fetched.error)));
        return;
      }
      depth' := depth + 1;
      failure, depth' := HangLinkedTrees(arena, fetched.value, linked, base, n0, fetchLinked, getTraces, depth');
    }
  }

  lemma SegmentsKept(a: seq<Node>, b: seq<Node>, segs: seq<Segment>, base: nat)
    requires Grows(a, b) && base + |segs| <= |a|
    requires forall j :: 0 <= j < |segs| ==> a[base + j].segment == segs[j]
    ensures forall j :: 0 <= j < |segs| ==> b[base + j].segment == segs[j]
  {
    forall j | 0 <= j < |segs| ensures b[base + j].segment == segs[j] {
      assert a[base + j].segment == segs[j];
    }
  }

  /** What a successful build guarantees about the tree it returns and the arena it leaves. */
  ghost predicate BuiltTree(t: Tree, nodes: seq<Node>, attached: set<nat>, base: nat, source: Trace,
                            order: seq<Segment>, fetchLinked: bool)
  {
    t.nodes == nodes && t.root == base && base < |nodes| && base + |order| <= |nodes| &&
    Shaped(nodes) && Detached(nodes, base) && base !in attached &&
    (assert [] + [base] == [base]; t.paths == FindLeafSegmentPaths(nodes, base, [])) &&
    t.sourceTrace == source.(segments := order) &&
    (forall j :: 0 <= j < |order| ==> nodes[base + j].segment == order[j]) &&
    Hung(nodes, order, base, |order|) &&
    (forall j :: 1 <= j < |order| && order[j].parentId.None? ==> Detached(nodes, base + j)) &&
    LinkedRootsHung(nodes, base, base + |order|, LinkedSoFar(fetchLinked, order, base, |order|))
  }

  /**
   * The tree a build returns, from the arena as the attach loop left it
   * (`placed`) and as the linked-trace step left it (`nodes`): nodes never
   * appended as a child (the root and the parentless segments) are detached.
   */
  lemma BuiltTreeIntro(t: Tree, placed: seq<Node>, nodes: seq<Node>, attached: set<nat>, base: nat, source: Trace,
                       order: seq<Segment>, fetchLinked: bool)
    requires Shaped(nodes) && (forall p, i :: 0 <= p < |nodes| && 0 <= i < |nodes[p].children| ==> nodes[p].children[i] in attached)
    requires |placed| == base + |order| && |order| >= 1 && Grows(placed, nodes)
    requires Detached(nodes, base) && [] + [base] == [base]
    requires t == Tree(nodes, base, FindLeafSegmentPaths(nodes, base, []), source.(segments := order), t.linkedTraceLimitExceeded)
    requires base !in attached
    requires forall j :: 1 <= j < |order| && order[j].parentId.None? ==> base + j !in attached
    requires forall j :: 0 <= j < |order| ==> placed[base + j].segment == order[j]
    requires Hung(placed, order, base, |order|)
    requires LinkedRootsHung(nodes, base, base + |order|, LinkedSoFar(fetchLinked, order, base, |order|))
    ensures BuiltTree(t, nodes, attached, base, source, order, fetchLinked)
  {
    HungGrows(placed, nodes, order, base, |order|);
    SegmentsKept(placed, nodes, order, base);
    assert [] + [base] == [base];
  }

  /**
   * The loop of `buildTree` over the fetched linked traces, in map order:
   * each is built (sharing the depth counter) and its root appended to the
   * children of the segment recorded for the root's trace id.
   */
  method HangLinkedTrees(arena: SegmentArena, fetched: map<string, Trace>, linked: map<string, nat>,
                         base: nat, n0: nat, fetchLinked: bool,
                         getTraces: set<string> -> Result<map<string, Trace>, string>, depth: nat)
    returns (failure: Option<GoError>, depth': nat)
    requires arena.Valid() && |arena.nodes| == n0 && base < n0 && 1 <= depth <= MaxTreeDepth
    requires forall t :: t in linked ==> base <= linked[t] < n0
    requires LinkedRootsHung(arena.nodes, base, n0, linked)
    modifies arena
    ensures arena.Valid()
    ensures depth <= depth' <= MaxTreeDepth
    ensures Grows(old(arena.nodes), arena.nodes)
    ensures arena.nodes[..base] == old(arena.nodes[..base])
    ensures forall c :: c in arena.attached && c !in old(arena.attached) ==> n0 <= c
    ensures LinkedRootsHung(arena.nodes, base, n0, linked)
    ensures failure.None? ==> forall tid :: tid in fetched ==> LinkedTraceHung(arena.nodes, n0, linked, fetched[tid])
    decreases MaxTreeDepth - depth + 1, 1
  {
    depth' := depth;
    failure := None;
    var remaining := fetched.Keys;
    while remaining != {}
      invariant arena.Valid()
      invariant depth <= depth' <= MaxTreeDepth
      invariant Grows(old(arena.nodes), arena.nodes)
      invariant arena.nodes[..base] == old(arena.nodes[..base])
      invariant forall c :: c in arena.attached && c !in old(arena.attached) ==> n0 <= c
      invariant LinkedRootsHung(arena.nodes, base, n0, linked)
      invariant forall tid :: tid in fetched && tid !in remaining ==> LinkedTraceHung(arena.nodes, n0, linked, fetched[tid])
      decreases remaining
    {
      var tid :| tid in remaining;
      ghost var before := arena.nodes;
      failure, depth' := HangLinkedTree(arena, tid, fetched[tid], linked, base, n0, fetchLinked, getTraces, depth');
      GrowsTrans(old(arena.nodes), before, arena.nodes);
      LinkedTracesGrow(before, arena.nodes, n0, linked, fetched, remaining);
      remaining := remaining - {tid};
      if failure.Some? {
        return;
      }
    }
  }

  /**
   * One round of the loop over the fetched linked traces: `trace`, fetched
   * under `tid`, is built with the shared counter and its root hung under
   * the segment recorded for the root's trace id.
   */
  method HangLinkedTree(arena: SegmentArena, tid: string, trace: Trace, linked: map<string, nat>,
                        base: nat, n0: nat, fetchLinked: bool,
                        getTraces: set<string> -> Result<map<string, Trace>, string>, depth: nat)
    returns (failure: Option<GoError>, depth': nat)
    requires arena.Valid() && n0 <= |arena.nodes| && base < n0 && 1 <= depth <= MaxTreeDepth
    requires forall t :: t in linked ==> base <= linked[t] < n0
    requires LinkedRootsHung(arena.nodes, base, n0, linked)
    modifies arena
    ensures arena.Valid()
    ensures depth <= depth' <= MaxTreeDepth
    ensures Grows(old(arena.nodes), arena.nodes)
    ensures arena.nodes[..base] == old(arena.nodes[..base])
    ensures forall c :: c in arena.attached && c !in old(arena.attached) ==> n0 <= c
    ensures LinkedRootsHung(arena.nodes, base, n0, linked)
    ensures failure.None? ==> LinkedTraceHung(arena.nodes, n0, linked, trace)
    decreases MaxTreeDepth - depth + 1, 0
  {
    ghost var before := arena.nodes;
    var sub, d, subOrder := BuildTree(arena, trace, fetchLinked, getTraces, depth);
    depth' := d;
    HangFrame(before, arena.nodes, base, n0, linked);
    if sub.Err? {
      return Some(Wrap(BuildTreeMessage(tid), sub.error)), depth';
    }
    ghost var mid := arena.nodes;
    EarliestFirst(subOrder, trace.segments);
    failure := AttachLinkedRoot(arena, linked, base, n0, sub.value.root, trace);
    GrowsTrans(before, mid, arena.nodes);
  }

  /**
   * One round of the loop over the fetched linked traces, once `trace` is
   * built with its root at `root`: the root is appended to the children of
   * the segment recorded for its trace id, and a trace id nobody recorded
   * dereferences a nil segment.
   */
  method AttachLinkedRoot(arena: SegmentArena, linked: map<string, nat>, base: nat, n0: nat, root: nat,
                          ghost trace: Trace)
    returns (failure: Option<GoError>)
    requires arena.Valid() && base < n0 <= root < |arena.nodes| && root !in arena.attached
    requires forall t :: t in linked ==> base <= linked[t] < n0
    requires LinkedRootsHung(arena.nodes, base, n0, linked)
    requires Earliest(arena.nodes[root].segment, trace.segments)
    modifies arena
    ensures arena.Valid()
    ensures Grows(old(arena.nodes), arena.nodes) && arena.nodes[..base] == old(arena.nodes[..base])
    ensures forall c :: c in arena.attached && c !in old(arena.attached) ==> n0 <= c
    ensures LinkedRootsHung(arena.nodes, base, n0, linked)
    ensures failure == if old(arena.nodes[root].segment.traceId) in linked then None else Some(Panic(NilDereference))
    ensures failure.None? ==> LinkedTraceHung(arena.nodes, n0, linked, trace)
  {
    var rootTrace := arena.nodes[root].segment.traceId;
    if rootTrace !in linked {
      return Some(Panic(NilDereference));
    }
    ghost var mid := arena.nodes;
    arena.InsertSegmentChild(linked[rootTrace], root);
    HangRoot(mid, arena.nodes, base, n0, linked, linked[rootTrace], root);
    assert root in arena.nodes[linked[rootTrace]].children;
    return None;
  }

  /** A nested build only appends: the nodes it found are untouched. */
  lemma HangFrame(before: seq<Node>, after: seq<Node>, base: nat, n0: nat, linked: map<string, nat>)
    requires base <= n0 <= |before| <= |after| && after[..|before|] == before
    requires Bounded(before) && LinkedRootsHung(before, base, n0, linked)
    ensures Grows(before, after) && after[..base] == before[..base]
    ensures LinkedRootsHung(after, base, n0, linked)
  {
    assert forall k :: 0 <= k < |before| ==> after[k] == before[k];
    forall p, c | base <= p < n0 && c in after[p].children && n0 <= c
      ensures LinkedRootUnder(after, c, linked, p)
    {
      assert c in before[p].children;
      assert LinkedRootUnder(before, c, linked, p);
    }
  }

  /** Appending a linked root under the segment recorded for its trace keeps the roots hung. */
  lemma HangRoot(mid: seq<Node>, after: seq<Node>, base: nat, n0: nat, linked: map<string, nat>,
                 parent: nat, root: nat)
    requires LinkedRootsHung(mid, base, n0, linked) && base <= parent < n0 && n0 <= root < |mid|
    requires |after| == |mid| && after[parent] == Node(mid[parent].segment, mid[parent].children + [root])
    requires forall i :: 0 <= i < |after| && i != parent ==> after[i] == mid[i]
    requires mid[root].segment.traceId in linked && linked[mid[root].segment.traceId] == parent
    ensures LinkedRootsHung(after, base, n0, linked)
    ensures after[..base] == mid[..base]
  {
    forall p, c | base <= p < n0 && c in after[p].children && n0 <= c
      ensures LinkedRootUnder(after, c, linked, p)
    {
      if c in mid[p].children {
        assert LinkedRootUnder(mid, c, linked, p);
      } else {
        assert p == parent && c == root;
      }
    }
  }

  /** Right after the attach loop no child lies beyond the trace's own nodes. */
  lemma NoLinkedRootsYet(nodes: seq<Node>, base: nat, linked: map<string, nat>)
    requires Bounded(nodes)
    ensures LinkedRootsHung(nodes, base, |nodes|, linked)
  {
    forall p, c | base <= p < |nodes| && c in nodes[p].children
      ensures c < |nodes|
    {
      var i :| 0 <= i < |nodes[p].children| && nodes[p].children[i] == c;
    }
  }
  function FetchTraceMessage(traceId: string): string
  {
    "failed to fetch trace " + traceId + " with error: "
  }

  /**
   * `NewTree`: fetches the source trace alone, refuses a failed fetch, an
   * absent trace and an empty segment list, in that order, and otherwise
   * builds the tree in a fresh arena with the shared counter at zero.
   * A successful tree is rooted at an earliest segment, its other
   * segments hang from the owners of their parent ids, and its paths are
   * exactly the root-to-leaf walks of the result.
   */
  method NewTree(getTraces: set<string> -> Result<map<string, Trace>, string>, sourceTraceId: string, fetchLinked: bool)
    returns (r: Result<Tree, GoError>)
    ensures getTraces({sourceTraceId}).Err? ==>
      r == Err(Failure(FetchTraceMessage(sourceTraceId) + getTraces({sourceTraceId}).error))
    ensures getTraces({sourceTraceId}).Ok? && sourceTraceId !in getTraces({sourceTraceId}).value ==>
      r == Err(Failure(FetchTraceMessage(sourceTraceId) + "trace not found"))
    ensures getTraces({sourceTraceId}).Ok? && sourceTraceId in getTraces({sourceTraceId}).value &&
            getTraces({sourceTraceId}).value[sourceTraceId].segments == [] ==>
      r == Err(Failure(FetchTraceMessage(sourceTraceId) + "no trace segments found"))
    ensures r.Err? && r.error.Failure? && getTraces({sourceTraceId}).Ok? &&
            sourceTraceId in getTraces({sourceTraceId}).value &&
            getTraces({sourceTraceId}).value[sourceTraceId].segments != [] ==>
      Text.HasPrefix(r.error.message, "failed to build trace tree " + sourceTraceId + " with error: ")
    ensures r.Ok? ==>
      getTraces({sourceTraceId}).Ok? && sourceTraceId in getTraces({sourceTraceId}).value &&
      TreeOfSource(r.value, getTraces({sourceTraceId}).value[sourceTraceId], fetchLinked, getTraces)
    ensures getTraces({sourceTraceId}).Ok? && sourceTraceId in getTraces({sourceTraceId}).value &&
            getTraces({sourceTraceId}).value[sourceTraceId].segments != [] &&
            ParentsOwned(getTraces({sourceTraceId}).value[sourceTraceId].segments) &&
            (!fetchLinked || NoChildLinks(getTraces({sourceTraceId}).value[sourceTraceId].segments)) ==>
      r.Ok?
  {
    var fetched := getTraces({sourceTraceId});
    if fetched.Err? {
      return Err(Failure(FetchTraceMessage(sourceTraceId) + fetched.error));
    }
    if sourceTraceId !in fetched.value {
      return Err(Failure(FetchTraceMessage(sourceTraceId) + "trace not found"));
    }
    var trace := fetched.value[sourceTraceId];
    if trace.segments == [] {
      return Err(Failure(FetchTraceMessage(sourceTraceId) + "no trace segments found"));
    }
    r := BuildSourceTree(sourceTraceId, trace, fetchLinked, getTraces);
  }

  /**
   * What a tree built from `source` with the counter at zero is: rooted at
   * an earliest segment, holding the source's segments in sorted order,
   * every segment with a parent id hung under its owner and the others
   * detached, every fetched linked root hung under its linking segment and
   * nowhere else, and as its paths the depth-first enumeration from the
   * root: every root-to-leaf walk, each once.
   */
  ghost predicate TreeOfSource(t: Tree, source: Trace, fetchLinked: bool,
                               getTraces: set<string> -> Result<map<string, Trace>, string>)
  {
    Shaped(t.nodes) && t.root < |t.nodes| && Detached(t.nodes, t.root) &&
    (assert [] + [t.root] == [t.root]; t.paths == FindLeafSegmentPaths(t.nodes, t.root, [])) &&
    (forall i, j :: 0 <= i < j < |t.paths| ==> t.paths[i] != t.paths[j]) &&
    SortedPermutation(t.sourceTrace.segments, source.segments) &&
    t.sourceTrace == source.(segments := t.sourceTrace.segments) &&
    t.sourceTrace.segments != [] && t.nodes[t.root].segment == t.sourceTrace.segments[0] &&
    (forall s :: s in source.segments ==> t.nodes[t.root].segment.startTime <= s.startTime) &&
    (forall k :: 0 <= k < |t.paths| ==> RootLeafChain(t.nodes, t.paths[k]) && t.paths[k][0] == t.root) &&
    (forall c :: RootLeafChain(t.nodes, c) && c[0] == t.root ==> c in t.paths) &&
    var segs := t.sourceTrace.segments;
    t.root + |segs| <= |t.nodes| &&
    Hung(t.nodes, segs, t.root, |segs|) &&
    (forall j :: 1 <= j < |segs| && segs[j].parentId.None? ==> Detached(t.nodes, t.root + j)) &&
    LinkedRootsHung(t.nodes, t.root, t.root + |segs|, LinkedSoFar(fetchLinked, segs, t.root, |segs|)) &&
    LinkedFetched(t.nodes, t.root, t.root + |segs|, LinkedSoFar(fetchLinked, segs, t.root, |segs|), fetchLinked, 0, getTraces) &&
    (t.linkedTraceLimitExceeded ==> fetchLinked)
  }

  /** The build step of `NewTree`: a fresh arena, the counter at zero, and a build error wrapped. */
  method BuildSourceTree(sourceTraceId: string, trace: Trace, fetchLinked: bool,
                         getTraces: set<string> -> Result<map<string, Trace>, string>)
    returns (r: Result<Tree, GoError>)
    requires trace.segments != []
    ensures r.Err? && r.error.Failure? ==>
      Text.HasPrefix(r.error.message, "failed to build trace tree " + sourceTraceId + " with error: ")
    ensures r.Ok? ==> TreeOfSource(r.value, trace, fetchLinked, getTraces)
    ensures ParentsOwned(trace.segments) && (!fetchLinked || NoChildLinks(trace.segments)) ==> r.Ok?
  {
    var arena := new SegmentArena();
    var built, depth, order := BuildTree(arena, trace, fetchLinked, getTraces, 0);
    if ParentsOwned(trace.segments) && (!fetchLinked || NoChildLinks(trace.segments)) {
      NoOrphanInAnyOrder(order, trace.segments);
      NoLinksInAnyOrder(order, trace.segments, fetchLinked);
    }
    if built.Err? {
      return Err(Wrap(BuildTreeMessage(sourceTraceId), built.error));
    }
    r := built;
    SourceTreeIntro(r.value, arena.nodes, arena.attached, trace, order, fetchLinked, getTraces);
  }

  /** A tree built from `source` in a fresh arena with the counter at zero is a tree of that source. */
  lemma SourceTreeIntro(t: Tree, nodes: seq<Node>, attached: set<nat>, source: Trace, order: seq<Segment>,
                        fetchLinked: bool, getTraces: set<string> -> Result<map<string, Trace>, string>)
    requires source.segments != [] && SortedPermutation(order, source.segments)
    requires BuiltTree(t, nodes, attached, 0, source, order, fetchLinked)
    requires LinkedFetched(nodes, 0, |order|, LinkedSoFar(fetchLinked, order, 0, |order|), fetchLinked, 0, getTraces)
    requires t.linkedTraceLimitExceeded ==> fetchLinked
    ensures TreeOfSource(t, source, fetchLinked, getTraces)
  {
    NewTreeFacts(t, nodes, attached, source, order, fetchLinked);
    NewTreeShape(t, nodes, attached, source, order, fetchLinked);
  }

  /** Every segment with a parent id has an owner among `segs`, as its own id or a nested subsegment's. */
  predicate ParentsOwned(segs: seq<Segment>)
  {
    forall j :: 0 <= j < |segs| && segs[j].parentId.Some? ==>
      exists k :: 0 <= k < |segs| && segs[j].parentId.value in OwnIds(segs[k])
  }

  /** No segment, and no direct subsegment of one, has a `child` link. */
  predicate NoChildLinks(segs: seq<Segment>)
  {
    forall j :: 0 <= j < |segs| ==> SegmentChildLinkIds(segs[j]) == {}
  }

  /** When every parent id has an owner, no order the sort may leave has an orphan. */
  lemma NoOrphanInAnyOrder(order: seq<Segment>, segs: seq<Segment>)
    requires SortedPermutation(order, segs) && ParentsOwned(segs)
    ensures FirstOrphan(order, 1).None?
  {
    forall i | 1 <= i < |order| ensures !Orphan(order, i) {
      if order[i].parentId.Some? {
        var id := order[i].parentId.value;
        assert order[i] in multiset(segs);
        var j :| 0 <= j < |segs| && segs[j] == order[i];
        var k :| 0 <= k < |segs| && id in OwnIds(segs[k]);
        assert segs[k] in multiset(order);
        var n :| 0 <= n < |order| && order[n] == segs[k];
        LastOwnerSpec(order, id);
      }
    }
  }

  /** Without `child` links, or without following them, no order the sort may leave records a linked trace. */
  lemma NoLinksInAnyOrder(order: seq<Segment>, segs: seq<Segment>, fetchLinked: bool)
    requires SortedPermutation(order, segs) && (!fetchLinked || NoChildLinks(segs))
    ensures LinkedSoFar(fetchLinked, order, 0, |order|) == map[]
  {
    if fetchLinked {
      forall i | 0 <= i < |order| ensures SegmentChildLinkIds(order[i]) == {} {
        assert order[i] in multiset(segs);
        var j :| 0 <= j < |segs| && segs[j] == order[i];
      }
      NoTargets(order, 0, |order|);
    }
  }

  /** Segments without `child` links record no linked trace. */
  lemma {:induction false} NoTargets(segs: seq<Segment>, base: nat, upto: nat)
    requires upto <= |segs| && NoChildLinks(segs)
    ensures LinkedTargets(segs, base, upto) == map[]
    decreases upto
  {
    if upto > 1 {
      NoTargets(segs, base, upto - 1);
      assert SegmentChildLinkIds(segs[upto - 1]) == {};
    }
  }

  /** What `NewTree` reads off a built tree. */
  lemma NewTreeFacts(t: Tree, nodes: seq<Node>, attached: set<nat>, source: Trace, order: seq<Segment>, fetchLinked: bool)
    requires source.segments != [] && SortedPermutation(order, source.segments)
    requires BuiltTree(t, nodes, attached, 0, source, order, fetchLinked)
    ensures Shaped(t.nodes) && t.root < |t.nodes| && Detached(t.nodes, t.root)
    ensures [] + [t.root] == [t.root] && t.paths == FindLeafSegmentPaths(t.nodes, t.root, [])
    ensures forall i, j :: 0 <= i < j < |t.paths| ==> t.paths[i] != t.paths[j]
    ensures SortedPermutation(t.sourceTrace.segments, source.segments)
    ensures t.sourceTrace == source.(segments := t.sourceTrace.segments)
    ensures t.nodes[t.root].segment == t.sourceTrace.segments[0]
    ensures forall s :: s in source.segments ==> t.nodes[t.root].segment.startTime <= s.startTime
    ensures forall k :: 0 <= k < |t.paths| ==> RootLeafChain(t.nodes, t.paths[k]) && t.paths[k][0] == t.root
    ensures forall c :: RootLeafChain(t.nodes, c) && c[0] == t.root ==> c in t.paths
  {
    EarliestFirst(order, source.segments);
    forall s | s in source.segments ensures t.nodes[t.root].segment.startTime <= s.startTime {
      var k :| 0 <= k < |source.segments| && source.segments[k] == s;
    }
    assert [] + [t.root] == [t.root];
    assert t.paths == FindLeafSegmentPaths(t.nodes, t.root, []);
    LeafPathsDistinct(t.nodes, t.root, []);
    PathsFromRoot(t.nodes, t.root);
    forall c | RootLeafChain(t.nodes, c) && c[0] == t.root ensures c in t.paths {
      EveryLeafHasPath(t.nodes, t.root, c);
    }
  }

  /** How `NewTree`'s segments hang, read off a built tree in the order the sort left. */
  lemma NewTreeShape(t: Tree, nodes: seq<Node>, attached: set<nat>, source: Trace, order: seq<Segment>, fetchLinked: bool)
    requires BuiltTree(t, nodes, attached, 0, source, order, fetchLinked)
    ensures t.sourceTrace.segments == order && t.root == 0 && t.nodes == nodes
    ensures t.root + |t.sourceTrace.segments| <= |t.nodes|
    ensures Hung(t.nodes, t.sourceTrace.segments, t.root, |t.sourceTrace.segments|)
    ensures forall j :: 1 <= j < |t.sourceTrace.segments| && t.sourceTrace.segments[j].parentId.None? ==>
      Detached(t.nodes, t.root + j)
    ensures LinkedRootsHung(t.nodes, t.root, t.root + |t.sourceTrace.segments|,
                            LinkedSoFar(fetchLinked, t.sourceTrace.segments, t.root, |t.sourceTrace.segments|))
  {
  }
}
