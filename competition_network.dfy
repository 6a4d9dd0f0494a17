/**
 * The topology classifier of a competition network
 * (src/sketch/modelutils/CompetitionNetwork.kt).
 *
 * In the source, CompetitionNetwork is a subclass of HyperGraph that only adds methods;
 * here those methods take the network object.  Classification runs a fixed,
 * short-circuiting decision: hypergraph, then path, then binary tree, then star.
 *
 * The binary-tree test prunes leaves from a copy of the incidence matrix.  The source
 * copies only the outer map, so the rows it strips are the network's own rows.  The
 * model keeps both readings: IsBinaryTree and IdentifyTopologyClass work on a private
 * copy and leave the network alone; IsBinaryTreeAsWritten and
 * IdentifyTopologyClassAsWritten also write the stripped rows back into the network,
 * as the shared rows do in the source.
 */
module CompetitionNetwork {
  import opened HyperGraph

  /** The labels identifyTopologyClass returns. */
  const ClassNotFound: int := -1
  const ClassBinaryTree: int := 0
  const ClassPath: int := 1
  const ClassStar: int := 2

  /** The vertices whose row has exactly the given number of keys. */
  function RowsOfSize<W>(m: Matrix<W>, size: nat): set<int>
  {
    set v | v in m && |m[v]| == size
  }

  /** The vertices whose row has a number of keys other than the given one. */
  function RowsNotOfSize<W>(m: Matrix<W>, size: nat): set<int>
  {
    set v | v in m && |m[v]| != size
  }

  /** The leaves: vertices of degree one. */
  function Leaves<W>(m: Matrix<W>): set<int>
  {
    RowsOfSize(m, 1)
  }

  /** Some vertex has degree greater than three. */
  predicate HasWideRow<W>(m: Matrix<W>)
  {
    exists v :: v in m && |m[v]| > 3
  }

  /** isPathClass: one vertex more than edges, and all but two rows have size two. */
  ghost predicate PathShape<W>(m: Matrix<W>)
  {
    |m| - NumEdges(m) == 1 && |m| - |RowsOfSize(m, 2)| == 2
  }

  /** isStar: at most two rows, or exactly one row whose size is not one. */
  function IsStar<W>(m: Matrix<W>): (b: bool)
    ensures b <==> |m| <= 2 || |RowsNotOfSize(m, 1)| == 1
  {
    RowPartition(m, 1);
    |m| <= 2 || |m| - |RowsOfSize(m, 1)| == 1
  }

  /** Row a keeps only keys of row b, with b's weights. */
  ghost predicate SubRow<W>(a: Row<W>, b: Row<W>)
  {
    forall k :: k in a ==> k in b && a[k] == b[k]
  }

  // ---------------------------------------------------------------------------
  // One pass of the leaf-pruning loop, as functions on the working copy

  /** The edge keys held by exactly one row. */
  ghost function Singles<W>(c: Matrix<W>): set<int>
  {
    set k | k in AllKeys(c) && |Holders(c, k)| == 1
  }

  /** Every row with the singly-held keys removed. */
  ghost function Stripped<W>(c: Matrix<W>): (r: Matrix<W>)
    ensures r.Keys == c.Keys
    ensures forall v :: v in r ==> SubRow(r[v], c[v])
    ensures forall k :: k in AllKeys(r) ==> |Holders(r, k)| >= 2
  {
    var r := map v | v in c :: c[v] - Singles(c);
    assert forall k :: k in AllKeys(r) ==> |Holders(r, k)| >= 2 by {
      forall k | k in AllKeys(r)
        ensures |Holders(r, k)| >= 2
      {
        var v :| v in r && k in r[v];
        StrippedHolders(c, k);
        assert k !in Singles(c);
        assert v in Holders(c, k);
      }
    }
    r
  }

  /** One pass: remove every leaf, then strip the keys that became singly held. */
  ghost function Pass<W>(c: Matrix<W>): (r: Matrix<W>)
    ensures r.Keys == c.Keys - Leaves(c)
    ensures |r| + |Leaves(c)| == |c|
    ensures forall v :: v in r ==> SubRow(r[v], c[v])
    ensures forall k :: k in AllKeys(r) ==> |Holders(r, k)| >= 2
  {
    var rest := c - Leaves(c);
    assert c.Keys * Leaves(c) == Leaves(c);
    assert |rest.Keys| == |c.Keys - Leaves(c)|;
    Stripped(rest)
  }

  /**
   * The working copy when the loop stops: passes run while the previous pass removed
   * a leaf; the last pass removes none.
   */
  ghost function Pruned<W>(c: Matrix<W>): (r: Matrix<W>)
    ensures r.Keys <= c.Keys
    ensures forall k :: k in AllKeys(r) ==> |Holders(r, k)| >= 2
    decreases |c|
  {
    var next := Pass(c);
    if Leaves(c) == {} then next
    else
      assert |Leaves(c)| > 0;
      Pruned(next)
  }

  /** The loop, started on copy c, reaches copy p: p is c or follows a pass that removed a leaf. */
  ghost predicate Visits<W>(c: Matrix<W>, p: Matrix<W>)
    decreases |c|
  {
    p == c || (Leaves(c) != {} && (assert |Leaves(c)| > 0; Visits(Pass(c), p)))
  }

  /** isBinaryTree: no vertex of degree above three, and pruning empties the copy. */
  ghost predicate BinaryTreeShape<W>(m: Matrix<W>)
  {
    !HasWideRow(m) && |Pruned(m)| == 0
  }

  /** identifyTopologyClass on a network that classification does not change. */
  ghost function TopologyClass<W>(m: Matrix<W>): (r: int)
    ensures r in {ClassNotFound, ClassBinaryTree, ClassPath, ClassStar}
  {
    if HasHyperEdge(m) then ClassNotFound
    else if PathShape(m) then ClassPath
    else if BinaryTreeShape(m) then ClassBinaryTree
    else if IsStar(m) then ClassStar
    else ClassNotFound
  }

  // ---------------------------------------------------------------------------
  // The source as written: the copy shares its rows with the network

  /** The rows of c written over the rows of o. */
  function Overlay<W>(o: Matrix<W>, c: Matrix<W>): (r: Matrix<W>)
  {
    map v | v in o.Keys + c.Keys :: if v in c then c[v] else o[v]
  }

  /** The network's matrix o once pruning from copy c has stripped the shared rows. */
  ghost function Residue<W>(o: Matrix<W>, c: Matrix<W>): (r: Matrix<W>)
    ensures o.Keys <= r.Keys
    ensures forall v :: v in o && v !in c ==> r[v] == o[v]
    decreases |c|
  {
    var next := Pass(c);
    var o' := Overlay(o, next);
    assert o.Keys <= o'.Keys;
    assert forall v :: v in o && v !in c ==> v !in next && o'[v] == o[v];
    if Leaves(c) == {} then o'
    else
      assert |Leaves(c)| > 0;
      Residue(o', next)
  }

  /** isBinaryTree as written: its answer, and the network's matrix afterwards. */
  ghost function BinaryTreeAsWritten<W>(m: Matrix<W>): (bool, Matrix<W>)
  {
    if HasWideRow(m) then (false, m) else (|Pruned(m)| == 0, Residue(m, m))
  }

  /** identifyTopologyClass as written: its label, and the network's matrix afterwards. */
  ghost function TopologyClassAsWritten<W>(m: Matrix<W>): (r: (int, Matrix<W>))
    ensures r.0 == ClassPath <==> TopologyClass(m) == ClassPath
    ensures r.0 == ClassBinaryTree <==> TopologyClass(m) == ClassBinaryTree
  {
    if HasHyperEdge(m) then (ClassNotFound, m)
    else if PathShape(m) then (ClassPath, m)
    else
      var tree := BinaryTreeAsWritten(m);
      var after := tree.1;
      if tree.0 then (ClassBinaryTree, after)
      else if IsStar(after) then (ClassStar, after)
      else (ClassNotFound, after)
  }

  // ---------------------------------------------------------------------------
  // The loops of isBinaryTree

  /** Collects the leaves of the working copy into the removal queue. */
  method CollectLeaves<W>(c: Matrix<W>) returns (removeQueue: set<int>, hasChanged: bool)
    ensures removeQueue == Leaves(c)
    ensures hasChanged <==> removeQueue != {}
  {
    removeQueue, hasChanged := {}, false;
    var rows := c.Keys;
    while rows != {}
      invariant rows <= c.Keys
      invariant removeQueue == set v | v in c.Keys - rows && |c[v]| == 1
      invariant hasChanged <==> removeQueue != {}
      decreases rows
    {
      NonEmptyHasElement(rows);
      var v :| v in rows;
      if |c[v]| == 1 {
        removeQueue := removeQueue + {v};
        hasChanged := true;
      }
      rows := rows - {v};
    }
    assert c.Keys - rows == c.Keys;
  }

  /** Strips from every row each key that exactly one row holds. */
  method StripSingles<W>(c: Matrix<W>) returns (r: Matrix<W>)
    ensures r == Stripped(c)
  {
    r := c;
    var groups := AllKeys(c);
    ghost var removed: set<int> := {};
    assert forall v :: v in c ==> r[v] == c[v] - removed by {
      forall v | v in c
        ensures r[v] == c[v] - removed
      {
        assert c[v] - {} == c[v];
      }
    }
    while groups != {}
      invariant groups <= AllKeys(c)
      invariant removed <= Singles(c)
      invariant forall k :: k in Singles(c) ==> (k in removed <==> k !in groups)
      invariant r.Keys == c.Keys
      invariant forall v :: v in c ==> r[v] == c[v] - removed
      decreases groups
    {
      NonEmptyHasElement(groups);
      var g :| g in groups;
      assert g !in removed;
      assert Holders(r, g) == Holders(c, g) by {
        forall v | v in c
          ensures g in r[v] <==> g in c[v]
        {
        }
      }
      var verticesInGroup := CountHolders(r, g);
      if verticesInGroup == 1 {
        ghost var before := r;
        r := map v | v in r :: r[v] - {g};
        removed := removed + {g};
        assert forall v :: v in c ==> r[v] == c[v] - removed by {
          forall v | v in c
            ensures r[v] == c[v] - removed
          {
            assert before[v] == c[v] - (removed - {g});
          }
        }
      }
      groups := groups - {g};
    }
    assert removed == Singles(c);
    assert forall v :: v in c ==> r[v] == Stripped(c)[v];
  }

  /** isBinaryTree, pruning a private copy: the network is left unchanged. */
  method IsBinaryTree<T, W>(net: HyperGraph<T, W>) returns (b: bool)
    ensures b == BinaryTreeShape(net.adjacentMatrix)
  {
    if exists v :: v in net.adjacentMatrix && |net.adjacentMatrix[v]| > 3 {
      return false;
    }
    var cloneMatrix := net.adjacentMatrix;
    var hasChanged := true;
    while hasChanged
      invariant hasChanged ==> Pruned(cloneMatrix) == Pruned(net.adjacentMatrix)
      invariant !hasChanged ==> cloneMatrix == Pruned(net.adjacentMatrix)
      decreases |cloneMatrix| + (if hasChanged then 1 else 0)
    {
      ghost var before := cloneMatrix;
      var removeQueue;
      removeQueue, hasChanged := CollectLeaves(cloneMatrix);
      cloneMatrix := cloneMatrix - removeQueue;
      cloneMatrix := StripSingles(cloneMatrix);
      assert cloneMatrix == Pass(before);
    }
    b := |cloneMatrix| == 0;
  }

  /**
   * isBinaryTree as written: the copy shares its rows with the network, so every
   * strip also shrinks the network's rows of the vertices still in the copy.
   */
  method IsBinaryTreeAsWritten<T, W>(net: HyperGraph<T, W>) returns (b: bool)
    modifies net`adjacentMatrix
    ensures (b, net.adjacentMatrix) == BinaryTreeAsWritten(old(net.adjacentMatrix))
  {
    ghost var m := net.adjacentMatrix;
    if exists v :: v in net.adjacentMatrix && |net.adjacentMatrix[v]| > 3 {
      return false;
    }
    var cloneMatrix := net.adjacentMatrix;
    var hasChanged := true;
    while hasChanged
      invariant hasChanged ==> Pruned(cloneMatrix) == Pruned(m)
      invariant hasChanged ==> Residue(net.adjacentMatrix, cloneMatrix) == Residue(m, m)
      invariant !hasChanged ==> cloneMatrix == Pruned(m)
      invariant !hasChanged ==> net.adjacentMatrix == Residue(m, m)
      decreases |cloneMatrix| + (if hasChanged then 1 else 0)
    {
      ghost var before := cloneMatrix;
      var removeQueue;
      removeQueue, hasChanged := CollectLeaves(cloneMatrix);
      cloneMatrix := cloneMatrix - removeQueue;
      cloneMatrix := StripSingles(cloneMatrix);
      assert cloneMatrix == Pass(before);
      // the rows still in the copy are the network's own rows
      net.adjacentMatrix := Overlay(net.adjacentMatrix, cloneMatrix);
    }
    b := |cloneMatrix| == 0;
  }

  /** isPathClass: the vertex count exceeds the edge count by one, and two rows are not of size two. */
  method IsPathClass<T, W>(net: HyperGraph<T, W>) returns (b: bool)
    ensures b == PathShape(net.adjacentMatrix)
  {
    var numEdges := net.NumberEdges();
    if |net.adjacentMatrix| - numEdges != 1 {
      return false;
    }
    var nonLeafs := RowsOfSize(net.adjacentMatrix, 2);
    return |net.adjacentMatrix| - |nonLeafs| == 2;
  }

  /** identifyTopologyClass with a private pruning copy: the network is left unchanged. */
  method IdentifyTopologyClass<T, W>(net: HyperGraph<T, W>) returns (c: int)
    ensures c == TopologyClass(net.adjacentMatrix)
  {
    var hyper := net.IsHyperGraph();
    if hyper {
      return ClassNotFound;
    }
    var path := IsPathClass(net);
    if path {
      return ClassPath;
    }
    var tree := IsBinaryTree(net);
    if tree {
      return ClassBinaryTree;
    }
    if IsStar(net.adjacentMatrix) {
      return ClassStar;
    }
    return ClassNotFound;
  }

  /** identifyTopologyClass as written: the star test sees the rows the pruning stripped. */
  method IdentifyTopologyClassAsWritten<T, W>(net: HyperGraph<T, W>) returns (c: int)
    modifies net`adjacentMatrix
    ensures (c, net.adjacentMatrix) == TopologyClassAsWritten(old(net.adjacentMatrix))
  {
    var hyper := net.IsHyperGraph();
    if hyper {
      return ClassNotFound;
    }
    var path := IsPathClass(net);
    if path {
      return ClassPath;
    }
    var tree := IsBinaryTreeAsWritten(net);
    if tree {
      return ClassBinaryTree;
    }
    if IsStar(net.adjacentMatrix) {
      return ClassStar;
    }
    return ClassNotFound;
  }

  // ---------------------------------------------------------------------------
  // Lemmas

  /** A strip empties the holders of a singly-held key and keeps the others'. */
  lemma StrippedHolders<W>(c: Matrix<W>, k: int)
    ensures Holders(map v | v in c :: c[v] - Singles(c), k) == if k in Singles(c) then {} else Holders(c, k)
  {
  }

  /**
   * A vertex whose row is empty is never a leaf, so it stays in the working copy:
   * a network with such a vertex is never a binary tree.
   */
  lemma {:induction false} ZeroRowBlocks<W>(c: Matrix<W>, v: int)
    requires v in c && c[v] == map[]
    ensures v in Pruned(c) && Pruned(c)[v] == map[]
    ensures !BinaryTreeShape(c)
    decreases |c|
  {
    assert v !in Leaves(c);
    var next := Pass(c);
    assert v in next && SubRow(next[v], c[v]);
    if Leaves(c) != {} {
      assert |Leaves(c)| > 0;
      ZeroRowBlocks(next, v);
    }
    assert v in Pruned(c);
  }

  /**
   * An empty row that the copy comes to have at a pass the loop reaches also stays
   * until the loop stops, so the test fails.
   */
  lemma ZeroRowReached<W>(c: Matrix<W>, p: Matrix<W>, v: int)
    requires Visits(c, p)
    requires v in p && p[v] == map[]
    ensures v in Pruned(c) && Pruned(c)[v] == map[]
    ensures !BinaryTreeShape(c)
  {
    PrunedFromVisited(c, p);
    ZeroRowBlocks(p, v);
  }

  /** The copies the loop passes through all lead to where it stops. */
  lemma {:induction false} PrunedFromVisited<W>(c: Matrix<W>, p: Matrix<W>)
    requires Visits(c, p)
    ensures Pruned(c) == Pruned(p)
    decreases |c|
  {
    if p != c {
      var next := Pass(c);
      assert |Leaves(c)| > 0;
      PrunedFromVisited(next, p);
      PrunedStep(c, next, Pruned(p));
    }
  }

  /** A pass that removed a leaf is followed by another. */
  lemma PrunedStep<W>(c: Matrix<W>, next: Matrix<W>, r: Matrix<W>)
    requires Leaves(c) != {} && Pass(c) == next && Pruned(next) == r
    ensures Pruned(c) == r
  {
  }

  /** The rows of each size and the other rows split the vertices. */
  lemma RowPartition<W>(m: Matrix<W>, size: nat)
    ensures |RowsOfSize(m, size)| + |RowsNotOfSize(m, size)| == |m|
  {
    var a, b := RowsOfSize(m, size), RowsNotOfSize(m, size);
    assert a * b == {};
    assert a + b == m.Keys;
  }

  /** A set of one element. */
  lemma CardOne(s: set<int>) returns (x: int)
    requires |s| == 1
    ensures s == {x}
  {
    NonEmptyHasElement(s);
    x :| x in s;
    assert |s - {x}| == 0;
    assert s - {x} == {};
    assert forall y :: y in s ==> y == x by {
      forall y | y in s
        ensures y == x
      {
        assert y !in s - {x};
      }
    }
  }

  /** A set of two elements. */
  lemma CardTwo(s: set<int>) returns (x: int, y: int)
    requires |s| == 2
    ensures x != y && s == {x, y}
  {
    NonEmptyHasElement(s);
    x :| x in s;
    assert |s - {x}| == 1;
    y := CardOne(s - {x});
    assert forall z :: z in s ==> z == x || z in s - {x};
  }

  /** h is the hub of a star: its degree is not one and every other degree is. */
  ghost predicate IsHub<W>(m: Matrix<W>, h: int)
  {
    h in m && |m[h]| != 1 && forall v :: v in m && v != h ==> |m[v]| == 1
  }

  /** isStar holds iff there are at most two vertices or there is exactly one hub. */
  lemma StarIff<W>(m: Matrix<W>)
    ensures IsStar(m) <==> |m| <= 2 || exists h :: IsHub(m, h)
  {
    RowPartition(m, 1);
    var others := RowsNotOfSize(m, 1);
    if |others| == 1 {
      var h := CardOne(others);
      assert h in others;
      forall v | v in m && v != h
        ensures |m[v]| == 1
      {
        assert v !in others;
      }
      assert IsHub(m, h);
    }
    if h :| IsHub(m, h) {
      forall v
        ensures v in others <==> v == h
      {
      }
      assert others == {h};
    }
  }

  /** a and b are the ends of a path: every other vertex has degree two and they do not. */
  ghost predicate AreEnds<W>(m: Matrix<W>, a: int, b: int)
  {
    && a != b && a in m && b in m && |m[a]| != 2 && |m[b]| != 2
    && forall v :: v in m && v != a && v != b ==> |m[v]| == 2
  }

  /** isPathClass holds iff there is one vertex more than edges and exactly two ends. */
  lemma PathIff<W>(m: Matrix<W>)
    ensures PathShape(m) <==> |m| - NumEdges(m) == 1 && exists a, b :: AreEnds(m, a, b)
  {
    RowPartition(m, 2);
    var others := RowsNotOfSize(m, 2);
    if |others| == 2 {
      var a, b := CardTwo(others);
      assert a in others && b in others;
      forall v | v in m && v != a && v != b
        ensures |m[v]| == 2
      {
        assert v !in others;
      }
      assert AreEnds(m, a, b);
    }
    if a, b :| AreEnds(m, a, b) {
      forall v
        ensures v in others <==> v == a || v == b
      {
      }
      assert others == {a, b};
    }
  }

  /** Writing back rows that shrink rows of o keeps every vertex of o and only shrinks rows. */
  lemma OverlayShrinks<W>(o: Matrix<W>, c: Matrix<W>)
    requires c.Keys <= o.Keys
    requires forall v :: v in c ==> SubRow(c[v], o[v])
    ensures Overlay(o, c).Keys == o.Keys
    ensures forall v :: v in o ==> SubRow(Overlay(o, c)[v], o[v])
  {
  }

  /** The as-written pruning keeps every vertex of the network and only shrinks rows. */
  lemma {:induction false} ResidueShrinks<W>(o: Matrix<W>, c: Matrix<W>)
    requires c.Keys <= o.Keys
    requires forall v :: v in c ==> SubRow(c[v], o[v])
    ensures Residue(o, c).Keys == o.Keys
    ensures forall v :: v in o ==> SubRow(Residue(o, c)[v], o[v])
    decreases |c|
  {
    var next := Pass(c);
    OverlayShrinks(o, next);
    var o' := Overlay(o, next);
    if Leaves(c) != {} {
      assert |Leaves(c)| > 0;
      forall v | v in next
        ensures SubRow(next[v], o'[v])
      {
        assert o'[v] == next[v];
      }
      ResidueShrinks(o', next);
      var r := Residue(o, c);
      assert r == Residue(o', next);
      forall v | v in o
        ensures SubRow(r[v], o[v])
      {
        SubRowTrans(r[v], o'[v], o[v]);
      }
    }
  }

  lemma SubRowTrans<W>(a: Row<W>, b: Row<W>, c: Row<W>)
    requires SubRow(a, b) && SubRow(b, c)
    ensures SubRow(a, c)
  {
  }

  /** The as-written binary-tree test keeps every vertex and never adds a key to a row. */
  lemma BinaryTreeAsWrittenShrinks<W>(m: Matrix<W>)
    ensures BinaryTreeAsWritten(m).1.Keys == m.Keys
    ensures forall v :: v in m ==> SubRow(BinaryTreeAsWritten(m).1[v], m[v])
  {
    if !HasWideRow(m) {
      ResidueShrinks(m, m);
    }
  }

  /** Classification as written keeps every vertex and never adds a key to a row. */
  lemma AsWrittenShrinks<W>(m: Matrix<W>)
    ensures TopologyClassAsWritten(m).1.Keys == m.Keys
    ensures forall v :: v in m ==> SubRow(TopologyClassAsWritten(m).1[v], m[v])
  {
    var after := TopologyClassAsWritten(m).1;
    AsWrittenAfter(m);
    if after == m {
      forall v | v in m
        ensures SubRow(after[v], m[v])
      {
      }
    } else {
      BinaryTreeAsWrittenShrinks(m);
    }
  }

  /** Classification as written leaves the network as it was, or as the binary-tree test left it. */
  lemma AsWrittenAfter<W>(m: Matrix<W>)
    ensures TopologyClassAsWritten(m).1 == m || TopologyClassAsWritten(m).1 == BinaryTreeAsWritten(m).1
  {
    if !HasHyperEdge(m) && !PathShape(m) {
      var tree := BinaryTreeAsWritten(m);
      var c := if tree.0 then ClassBinaryTree else if IsStar(tree.1) then ClassStar else ClassNotFound;
      assert TopologyClassAsWritten(m) == (c, tree.1);
    }
  }

  /** A built network in which some call listed three or more vertices is NOT_FOUND. */
  lemma BuiltHyperEdgeNotFound<W>(calls: seq<GroupCall<W>>)
    requires HasWideCall(calls)
    ensures TopologyClass(Build(calls)) == ClassNotFound
  {
    BuildHyperEdge(calls);
  }

  /** A single group of two distinct vertices is a PATH, although it is also a star. */
  lemma SinglePairIsPath<W>(a: int, b: int, w: W)
    requires a != b
    ensures IsStar(Build([GroupCall([a, b], w)]))
    ensures TopologyClass(Build([GroupCall([a, b], w)])) == ClassPath
  {
    var calls := [GroupCall([a, b], w)];
    assert Members([a, b]) == {a, b};
    BuildPairs(calls);
    SinglePairRows(a, b, w);
  }

  /** A single group of two distinct vertices: two rows of one key each. */
  lemma SinglePairRows<W>(a: int, b: int, w: W)
    requires a != b
    ensures var m := Build([GroupCall([a, b], w)]); |m| == 2 && RowsOfSize(m, 2) == {}
  {
    var calls := [GroupCall([a, b], w)];
    assert calls[..0] == [];
    var m := Grouped(map[], [a, b], w);
    assert Build(calls) == m;
    assert Members([a, b]) == {a, b};
    assert m.Keys == {a, b};
    assert RowsOfSize(m, 2) == {} by {
      assert |m[a]| == 1 && |m[b]| == 1;
    }
  }

  /** The empty network is a BINARY_TREE: pruning has nothing to do. */
  lemma EmptyIsBinaryTree<W>(m: Matrix<W>)
    requires m == map[]
    ensures TopologyClass(m) == ClassBinaryTree
  {
    assert AllKeys(m) == {};
    assert Incidences(m) == 0;
    assert Leaves(m) == {};
    assert |Pruned(m)| == 0;
  }

  /**
   * A matrix without leaves whose every key is shared by two rows is left as it is by
   * pruning: a cycle is never peeled away.
   */
  lemma StablePruned<W>(c: Matrix<W>)
    requires Leaves(c) == {}
    requires forall k :: k in AllKeys(c) ==> |Holders(c, k)| >= 2
    ensures Pruned(c) == c
  {
    var rest := c - Leaves(c);
    assert rest == c by {
      assert rest.Keys == c.Keys;
    }
    assert Singles(c) == {} by {
      forall k | k in Singles(c)
        ensures false
      {
      }
    }
    StrippedIs(c, {}, c);
  }

  /** Stripping a matrix, from its singly-held keys and the result. */
  lemma StrippedIs<W>(c: Matrix<W>, singles: set<int>, r: Matrix<W>)
    requires Singles(c) == singles && r.Keys == c.Keys
    requires forall v :: v in r ==> r[v] == c[v] - singles
    ensures Stripped(c) == r
  {
    var s := Stripped(c);
    assert s.Keys == r.Keys;
    forall v | v in r
      ensures s[v] == r[v]
    {
    }
  }

}
