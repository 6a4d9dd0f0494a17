/**
 * Concrete networks built by `group` calls, and how they are classified.
 *
 * Each scenario lists its incidence matrix after every call, proves each call's
 * effect with the contract of `group`, and then follows the leaf pruning pass by pass.
 */
module Scenarios {
  import opened HyperGraph
  import opened CompetitionNetwork

  // ---------------------------------------------------------------------------
  // Helpers for computing on small literal matrices

  /** The key a group receives, pinned down by the greatest key present. */
  lemma NextKeyIs<W>(m: Matrix<W>, key: int)
    requires key == 0 || key - 1 in AllKeys(m)
    requires forall v, k :: v in m && k in m[v] ==> k < key
    requires key == 0 ==> AllKeys(m) == {}
    ensures NextKey(m) == key
  {
    if AllKeys(m) != {} {
      var k := NextKey(m) - 1;
      var v :| v in m && k in m[v];
    }
  }

  /** Writing a key into the rows of two distinct vertices updates exactly those two rows. */
  lemma AddToPair<W>(m: Matrix<W>, a: int, b: int, key: int, w: W)
    requires a != b
    ensures AddToRows(m, [a, b], key, w) == m[a := RowOf(m, a)[key := w]][b := RowOf(m, b)[key := w]]
  {
    var r := AddToRows(m, [a, b], key, w);
    var q := m[a := RowOf(m, a)[key := w]][b := RowOf(m, b)[key := w]];
    assert Members([a, b]) == {a, b};
    assert r.Keys == q.Keys;
  }

  /** A `group` call of two distinct vertices writes the next key into their two rows. */
  lemma GroupedPairIs<W>(m: Matrix<W>, a: int, b: int, w: W, key: int, q: Matrix<W>)
    requires a != b && NextKey(m) == key
    requires q == m[a := RowOf(m, a)[key := w]][b := RowOf(m, b)[key := w]]
    ensures Grouped(m, [a, b], w) == q
  {
    AddToPair(m, a, b, key, w);
  }

  /** A `group` call of one vertex writes the next key into its row only. */
  lemma GroupedSingleIs<W>(m: Matrix<W>, a: int, w: W, key: int, q: Matrix<W>)
    requires NextKey(m) == key
    requires q == m[a := RowOf(m, a)[key := w]]
    ensures Grouped(m, [a], w) == q
  {
    AddToSingle(m, a, key, w);
  }

  /** Writing a key into the row of one vertex updates exactly that row. */
  lemma AddToSingle<W>(m: Matrix<W>, a: int, key: int, w: W)
    ensures AddToRows(m, [a], key, w) == m[a := RowOf(m, a)[key := w]]
  {
    var r := AddToRows(m, [a], key, w);
    var q := m[a := RowOf(m, a)[key := w]];
    assert Members([a]) == {a};
    assert r.Keys == q.Keys;
  }

  /** A call of one vertex adds no hyperedge and one incidence. */
  lemma SingleStep<W>(m: Matrix<W>, a: int, w: W, q: Matrix<W>)
    requires Grouped(m, [a], w) == q
    ensures HasHyperEdge(q) <==> HasHyperEdge(m)
    ensures Incidences(q) == Incidences(m) + 1
  {
    assert Members([a]) == {a};
    GroupedHyperEdge(m, [a], w);
    GroupedIncidences(m, [a], w);
  }

  /** A call listing two distinct vertices. */
  lemma PairMembers(a: int, b: int)
    requires a != b
    ensures |Members([a, b])| == 2
  {
    assert Members([a, b]) == {a, b};
  }

  /** The empty network has no hyperedge and no incidence. */
  lemma EmptyPairs()
    ensures !HasHyperEdge<int>(map[]) && Incidences<int>(map[]) == 0
  {
    var m: Matrix<int> := map[];
    assert AllKeys(m) == {};
    assert m.Keys == {};
  }

  /** A call of two distinct vertices adds no hyperedge and two incidences. */
  lemma PairStep<W>(m: Matrix<W>, a: int, b: int, w: W, q: Matrix<W>)
    requires a != b && Grouped(m, [a, b], w) == q
    ensures HasHyperEdge(q) <==> HasHyperEdge(m)
    ensures Incidences(q) == Incidences(m) + 2
  {
    PairMembers(a, b);
    GroupedHyperEdge(m, [a, b], w);
    GroupedIncidences(m, [a, b], w);
  }

  /** The holders of a key, read off a small matrix. */
  lemma HoldersAre<W>(m: Matrix<W>, k: int, s: set<int>)
    requires s <= m.Keys
    requires forall v :: v in m ==> (k in m[v] <==> v in s)
    ensures Holders(m, k) == s
  {
    forall v
      ensures v in Holders(m, k) <==> v in s
    {
    }
  }

  /** The rows of a given size, read off a small matrix. */
  lemma RowsAre<W>(m: Matrix<W>, size: nat, s: set<int>)
    requires s <= m.Keys
    requires forall v :: v in m ==> (|m[v]| == size <==> v in s)
    ensures RowsOfSize(m, size) == s
  {
    forall v
      ensures v in RowsOfSize(m, size) <==> v in s
    {
    }
  }

  /** The singly-held keys, from the keys that are and the keys that are not. */
  lemma SinglesAre<W>(c: Matrix<W>, s: set<int>)
    requires forall k :: k in s ==> k in AllKeys(c) && |Holders(c, k)| == 1
    requires forall v, k :: v in c && k in c[v] && k !in s ==> |Holders(c, k)| != 1
    ensures Singles(c) == s
  {
    forall k
      ensures k in Singles(c) <==> k in s
    {
    }
  }

  /** One pruning pass, from its leaves, the remaining rows, their singly-held keys and the result. */
  lemma PassIs<W>(c: Matrix<W>, leaves: set<int>, singles: set<int>, core: Matrix<W>, r: Matrix<W>)
    requires Leaves(c) == leaves && c - leaves == core && Singles(core) == singles
    requires r.Keys == core.Keys
    requires forall v :: v in r ==> r[v] == core[v] - singles
    ensures Pass(c) == r
  {
    StrippedIs(core, singles, r);
    assert Pass(c) == Stripped(core);
  }

  /** Pruning an empty copy does nothing. */
  lemma EmptyPass<W>(c: Matrix<W>)
    requires c == map[]
    ensures Leaves(c) == {} && Pass(c) == c && Pruned(c) == c
  {
    assert Leaves(c) == {};
    assert Pass(c).Keys == {};
  }

  /** The edge count, from the row sizes of a small matrix. */
  lemma IncidencesAre<W>(m: Matrix<W>, vs: seq<int>, n: nat)
    requires m.Keys == Members(vs)
    requires forall i, j :: 0 <= i < j < |vs| ==> vs[i] != vs[j]
    requires n == RowSizes(m, vs)
    ensures Incidences(m) == n
  {
    SumSizesAlong(m, vs);
  }

  /** The sum of the row sizes along a list of vertices. */
  function RowSizes<W>(m: Matrix<W>, vs: seq<int>): nat
  {
    if vs == [] then 0 else |RowOf(m, vs[0])| + RowSizes(m, vs[1..])
  }

  lemma {:induction false} SumSizesAlong<W>(m: Matrix<W>, vs: seq<int>)
    requires forall i, j :: 0 <= i < j < |vs| ==> vs[i] != vs[j]
    ensures SumSizes(m, Members(vs)) == RowSizes(m, vs)
    decreases |vs|
  {
    if vs != [] {
      SumSizesAlong(m, vs[1..]);
      SumSizesRemove(m, Members(vs), vs[0]);
      assert Members(vs) - {vs[0]} == Members(vs[1..]) by {
        forall x
          ensures x in Members(vs) - {vs[0]} <==> x in Members(vs[1..])
        {
          if x in Members(vs) - {vs[0]} {
            var i :| 0 <= i < |vs| && vs[i] == x;
            assert vs[1..][i - 1] == x;
          }
        }
      }
    } else {
      assert Members(vs) == {};
    }
  }

  /** A captive market per seller, as in the example program: only seller 0 has one. */
  function CaptiveMarket(i: int): int
  {
    if i == 0 then 120 else 0
  }

  /** As written, each pass writes its stripped rows back before the next pass. */
  lemma ResidueStep<W>(o: Matrix<W>, c: Matrix<W>, next: Matrix<W>, o': Matrix<W>, r: Matrix<W>)
    requires Leaves(c) != {} && Pass(c) == next && Overlay(o, next) == o' && Residue(o', next) == r
    ensures Residue(o, c) == r
  {
  }

  /** As written, the last pass writes its stripped rows back too. */
  lemma ResidueLast<W>(o: Matrix<W>, c: Matrix<W>, next: Matrix<W>, r: Matrix<W>)
    requires Leaves(c) == {} && Pass(c) == next && Overlay(o, next) == r
    ensures Residue(o, c) == r
  {
  }

  /** Two passes that empty the copy; as written, the second writes nothing back. */
  lemma EmptiedInTwo<W>(c: Matrix<W>, c1: Matrix<W>, o1: Matrix<W>)
    ensures Leaves(c) != {} && Pass(c) == c1 && Leaves(c1) != {} && Pass(c1) == map[] ==>
              Pruned(c) == map[] && (Overlay(c, c1) == o1 ==> Residue(c, c) == o1)
  {
    var e: Matrix<W> := map[];
    if Leaves(c) != {} && Pass(c) == c1 && Leaves(c1) != {} && Pass(c1) == e {
      EmptyPass(e);
      PrunedStep(c1, e, e);
      PrunedStep(c, c1, e);
      if Overlay(c, c1) == o1 {
        OverlaySame(o1, e);
        ResidueLast(o1, e, e, o1);
        ResidueStep(o1, c1, e, o1, o1);
        ResidueStep(c, c, c1, o1, o1);
      }
    }
  }

  /** Writing back rows that are already there changes nothing. */
  lemma OverlaySame<W>(o: Matrix<W>, c: Matrix<W>)
    requires c.Keys <= o.Keys
    requires forall v :: v in c ==> c[v] == o[v]
    ensures Overlay(o, c) == o
  {
    var r := Overlay(o, c);
    assert r.Keys == o.Keys;
    forall v | v in r
      ensures r[v] == o[v]
    {
    }
  }

  /** Classification as written, on a network whose copy prunes to nothing. */
  lemma AsWrittenTree<W>(m: Matrix<W>, after: Matrix<W>)
    requires TopologyClass(m) == ClassBinaryTree && Residue(m, m) == after
    ensures TopologyClassAsWritten(m) == (ClassBinaryTree, after)
  {
  }

  /** Classification as written, on a network that is neither a path nor a binary tree. */
  lemma AsWrittenOther<W>(m: Matrix<W>, after: Matrix<W>)
    requires !HasHyperEdge(m) && !PathShape(m) && !HasWideRow(m) && !BinaryTreeShape(m)
    requires Residue(m, m) == after
    ensures TopologyClassAsWritten(m) == (if IsStar(after) then ClassStar else ClassNotFound, after)
  {
  }

  // ---------------------------------------------------------------------------
  // Scenario: the network built by the example program (Main.kt)

  /** The incidence matrix after the first call. */
  function MainNetwork1(): Matrix<int>
  {
    map[0 := map[0 := 185], 1 := map[0 := 185]]
  }

  /** The incidence matrix after the first 2 calls. */
  function MainNetwork2(): Matrix<int>
  {
    map[0 := map[0 := 185], 1 := map[0 := 185, 1 := 150], 2 := map[1 := 150]]
  }

  /** The incidence matrix after the first 3 calls. */
  function MainNetwork3(): Matrix<int>
  {
    map[0 := map[0 := 185], 1 := map[0 := 185, 1 := 150], 2 := map[1 := 150, 2 := 120], 3 := map[2 := 120]]
  }

  /** The incidence matrix after the first 4 calls. */
  function MainNetwork4(): Matrix<int>
  {
    map[0 := map[0 := 185], 1 := map[0 := 185, 1 := 150, 3 := 120], 2 := map[1 := 150, 2 := 120], 3 := map[2 := 120], 4 := map[3 := 120]]
  }

  /** The incidence matrix once all 5 calls are made. */
  function MainNetwork(): Matrix<int>
  {
    map[0 := map[0 := 185], 1 := map[0 := 185, 1 := 150, 3 := 120], 2 := map[1 := 150, 2 := 120, 4 := 120], 3 := map[2 := 120], 4 := map[3 := 120], 5 := map[4 := 120]]
  }

  /** Call 1 gives key 0 to vertices 0 and 1. */
  lemma MainNetworkStep1()
    ensures Grouped(map[], [0, 1], 185) == MainNetwork1()
  {
    var m: Matrix<int> := map[];
    assert AllKeys(m) == {};
    NextKeyIs(m, 0);
    GroupedPairIs(m, 0, 1, 185, 0, MainNetwork1());
  }

  /** Call 2 gives key 1 to vertices 1 and 2. */
  lemma MainNetworkStep2()
    ensures Grouped(MainNetwork1(), [1, 2], 150) == MainNetwork2()
  {
    var m: Matrix<int> := MainNetwork1();
    assert 0 in m[0];
    NextKeyIs(m, 1);
    GroupedPairIs(m, 1, 2, 150, 1, MainNetwork2());
  }

  /** Call 3 gives key 2 to vertices 2 and 3. */
  lemma MainNetworkStep3()
    ensures Grouped(MainNetwork2(), [2, 3], 120) == MainNetwork3()
  {
    var m: Matrix<int> := MainNetwork2();
    assert 1 in m[1];
    NextKeyIs(m, 2);
    GroupedPairIs(m, 2, 3, 120, 2, MainNetwork3());
  }

  /** Call 4 gives key 3 to vertices 1 and 4. */
  lemma MainNetworkStep4()
    ensures Grouped(MainNetwork3(), [1, 4], 120) == MainNetwork4()
  {
    var m: Matrix<int> := MainNetwork3();
    assert 2 in m[2];
    NextKeyIs(m, 3);
    GroupedPairIs(m, 1, 4, 120, 3, MainNetwork4());
  }

  /** Call 5 gives key 4 to vertices 2 and 5. */
  lemma MainNetworkStep5()
    ensures Grouped(MainNetwork4(), [2, 5], 120) == MainNetwork()
  {
    var m: Matrix<int> := MainNetwork4();
    assert 3 in m[1];
    NextKeyIs(m, 4);
    GroupedPairIs(m, 2, 5, 120, 4, MainNetwork());
  }

  /** The first call listed two vertices. */
  lemma MainNetworkPairs1()
    ensures !HasHyperEdge(MainNetwork1()) && Incidences(MainNetwork1()) == 2
  {
    EmptyPairs();
    MainNetworkStep1();
    PairStep(map[], 0, 1, 185, MainNetwork1());
  }

  /** The first 2 calls listed two vertices each. */
  lemma MainNetworkPairs2()
    ensures !HasHyperEdge(MainNetwork2()) && Incidences(MainNetwork2()) == 4
  {
    MainNetworkPairs1();
    MainNetworkStep2();
    PairStep(MainNetwork1(), 1, 2, 150, MainNetwork2());
  }

  /** The first 3 calls listed two vertices each. */
  lemma MainNetworkPairs3()
    ensures !HasHyperEdge(MainNetwork3()) && Incidences(MainNetwork3()) == 6
  {
    MainNetworkPairs2();
    MainNetworkStep3();
    PairStep(MainNetwork2(), 2, 3, 120, MainNetwork3());
  }

  /** The first 4 calls listed two vertices each. */
  lemma MainNetworkPairs4()
    ensures !HasHyperEdge(MainNetwork4()) && Incidences(MainNetwork4()) == 8
  {
    MainNetworkPairs3();
    MainNetworkStep4();
    PairStep(MainNetwork3(), 1, 4, 120, MainNetwork4());
  }

  /** Every call so far listed two vertices: no hyperedge, two incidences per call. */
  lemma MainNetworkPairs()
    ensures !HasHyperEdge(MainNetwork()) && Incidences(MainNetwork()) == 10
  {
    MainNetworkPairs4();
    MainNetworkStep5();
    PairStep(MainNetwork4(), 2, 5, 120, MainNetwork());
  }

  /** The network's own matrix once the as-written pruning has stripped rows 1 and 2. */
  function MainNetworkStripped(): Matrix<int>
  {
    map[0 := map[0 := 185], 1 := map[1 := 150], 2 := map[1 := 150], 3 := map[2 := 120], 4 := map[3 := 120], 5 := map[4 := 120]]
  }

  /** The copy in pass 1 once its leaves are removed. */
  function MainNetworkCore1(): Matrix<int>
  {
    map[1 := map[0 := 185, 1 := 150, 3 := 120], 2 := map[1 := 150, 2 := 120, 4 := 120]]
  }

  /** The copy after pass 1. */
  function MainNetworkPass1(): Matrix<int>
  {
    map[1 := map[1 := 150], 2 := map[1 := 150]]
  }

  /** The leaves of the copy at pass 1. */
  lemma MainNetworkLeaves1()
    ensures Leaves<int>(MainNetwork()) == {0, 3, 4, 5}
  {
    var m := MainNetwork();
    assert m.Keys == {0, 1, 2, 3, 4, 5};
    RowsAre(m, 1, {0, 3, 4, 5});
  }

  /** The copy at pass 1 without its leaves. */
  lemma MainNetworkRest1()
    ensures MainNetwork() - {0, 3, 4, 5} == MainNetworkCore1()
  {
    var m := MainNetwork();
    var core: Matrix<int> := MainNetworkCore1();
    assert (m - {0, 3, 4, 5}).Keys == core.Keys;
    forall v | v in core
      ensures (m - {0, 3, 4, 5})[v] == core[v]
    {
    }
  }

  /** The keys that only one remaining row holds at pass 1. */
  lemma MainNetworkSingles1()
    ensures Singles<int>(MainNetworkCore1()) == {0, 2, 3, 4}
  {
    var m: Matrix<int> := MainNetworkCore1();
    assert m.Keys == {1, 2};
    HoldersAre(m, 0, {1});
    HoldersAre(m, 1, {1, 2});
    HoldersAre(m, 2, {2});
    HoldersAre(m, 3, {1});
    HoldersAre(m, 4, {2});
    assert 0 in m[1];
    assert 2 in m[2];
    assert 3 in m[1];
    assert 4 in m[2];
    SinglesAre(m, {0, 2, 3, 4});
  }

  /** Pass 1 strips those keys from the remaining rows. */
  lemma MainNetworkStrip1()
    ensures MainNetworkPass1().Keys == MainNetworkCore1().Keys
    ensures forall v :: v in MainNetworkPass1() ==> MainNetworkPass1()[v] == MainNetworkCore1()[v] - {0, 2, 3, 4}
  {
    var core: Matrix<int> := MainNetworkCore1();
    var r: Matrix<int> := MainNetworkPass1();
    assert r.Keys == core.Keys;
    forall v | v in r
      ensures r[v] == core[v] - {0, 2, 3, 4}
    {
    }
  }

  /** Pass 1 of the pruning loop. */
  lemma MainNetworkPass1Is()
    ensures Leaves<int>(MainNetwork()) != {}
    ensures Pass<int>(MainNetwork()) == MainNetworkPass1()
  {
    MainNetworkLeaves1();
    MainNetworkRest1();
    MainNetworkSingles1();
    MainNetworkStrip1();
    PassIs(MainNetwork(), {0, 3, 4, 5}, {0, 2, 3, 4}, MainNetworkCore1(), MainNetworkPass1());
  }

  /** The leaves of the copy at pass 2. */
  lemma MainNetworkLeaves2()
    ensures Leaves<int>(MainNetworkPass1()) == {1, 2}
  {
    var m := MainNetworkPass1();
    assert m.Keys == {1, 2};
    RowsAre(m, 1, {1, 2});
  }

  /** The copy at pass 2 without its leaves. */
  lemma MainNetworkRest2()
    ensures MainNetworkPass1() - {1, 2} == map[]
  {
    var m := MainNetworkPass1();
    var core: Matrix<int> := map[];
    assert (m - {1, 2}).Keys == core.Keys;
  }

  /** The keys that only one remaining row holds at pass 2. */
  lemma MainNetworkSingles2()
    ensures Singles<int>(map[]) == {}
  {
    var m: Matrix<int> := map[];
    assert m.Keys == {};
    SinglesAre(m, {});
  }

  /** Pass 2 of the pruning loop. */
  lemma MainNetworkPass2Is()
    ensures Leaves<int>(MainNetworkPass1()) != {}
    ensures Pass<int>(MainNetworkPass1()) == map[]
  {
    MainNetworkLeaves2();
    MainNetworkRest2();
    MainNetworkSingles2();
    PassIs(MainNetworkPass1(), {1, 2}, {}, map[], map[]);
  }

  /** Six vertices. */
  lemma MainNetworkSize()
    ensures |MainNetwork()| == 6
  {
    var m := MainNetwork();
    assert m.Keys == {0, 1, 2, 3, 4, 5};
  }

  /** No vertex of degree two. */
  lemma MainNetworkNoDegreeTwo()
    ensures RowsOfSize(MainNetwork(), 2) == {}
  {
    var m := MainNetwork();
    assert m.Keys == {0, 1, 2, 3, 4, 5};
    RowsAre(m, 2, {});
  }

  /** No vertex of degree above three. */
  lemma MainNetworkNarrow()
    ensures !HasWideRow(MainNetwork())
  {
    var m := MainNetwork();
    assert m.Keys == {0, 1, 2, 3, 4, 5};
  }

  /** The example network prunes to nothing. */
  lemma MainNetworkPruned()
    ensures Pruned(MainNetwork()) == map[]
  {
    MainNetworkPass1Is();
    MainNetworkPass2Is();
    EmptiedInTwo(MainNetwork(), MainNetworkPass1(), MainNetworkStripped());
  }

  /** The first pass, written back as the source writes it, strips rows 1 and 2. */
  lemma MainNetworkOverlay()
    ensures Overlay(MainNetwork(), MainNetworkPass1()) == MainNetworkStripped()
  {
    var r := Overlay(MainNetwork(), MainNetworkPass1());
    assert r.Keys == MainNetworkStripped().Keys;
  }

  /** As written, pruning the example network leaves rows 1 and 2 with one key each. */
  lemma MainNetworkResidue()
    ensures Residue(MainNetwork(), MainNetwork()) == MainNetworkStripped()
  {
    MainNetworkPass1Is();
    MainNetworkPass2Is();
    MainNetworkOverlay();
    EmptiedInTwo(MainNetwork(), MainNetworkPass1(), MainNetworkStripped());
  }

  /** The example network is a BINARY_TREE. */
  lemma MainNetworkClass()
    ensures TopologyClass(MainNetwork()) == ClassBinaryTree
  {
    MainNetworkPairs();
    MainNetworkSize();
    MainNetworkNoDegreeTwo();
    MainNetworkNarrow();
    MainNetworkPruned();
  }

  /** As written, classifying the example network still answers BINARY_TREE, but changes it. */
  lemma MainNetworkClassAsWritten()
    ensures TopologyClassAsWritten(MainNetwork()) == (ClassBinaryTree, MainNetworkStripped())
  {
    MainNetworkClass();
    MainNetworkResidue();
    AsWrittenTree(MainNetwork(), MainNetworkStripped());
  }

  /** The stripped matrix differs from the network the example program built. */
  lemma MainNetworkChanged()
    ensures MainNetworkStripped() != MainNetwork()
  {
    assert 0 in MainNetwork()[1] && 0 !in MainNetworkStripped()[1];
  }

  /**
   * The example program: five groups, then classification as the source does it.
   * The network is a BINARY_TREE, and classification leaves rows 1 and 2 stripped.
   */
  method MainExample() returns (c: int, g: HyperGraph<int, int>)
    ensures c == ClassBinaryTree
    ensures g.adjacentMatrix == MainNetworkStripped()
  {
    g := new HyperGraph<int, int>();
    g.Group([0, 1], 185, CaptiveMarket);
    MainNetworkStep1();
    g.Group([1, 2], 150, CaptiveMarket);
    MainNetworkStep2();
    g.Group([2, 3], 120, CaptiveMarket);
    MainNetworkStep3();
    g.Group([1, 4], 120, CaptiveMarket);
    MainNetworkStep4();
    g.Group([2, 5], 120, CaptiveMarket);
    MainNetworkStep5();
    MainNetworkClassAsWritten();
    c := IdentifyTopologyClassAsWritten(g);
  }

  // ---------------------------------------------------------------------------
  // Scenario: a path of five vertices

  /** The incidence matrix after the first call. */
  function Path1(): Matrix<int>
  {
    map[0 := map[0 := 2], 1 := map[0 := 2]]
  }

  /** The incidence matrix after the first 2 calls. */
  function Path2(): Matrix<int>
  {
    map[0 := map[0 := 2], 1 := map[0 := 2, 1 := 2], 2 := map[1 := 2]]
  }

  /** The incidence matrix after the first 3 calls. */
  function Path3(): Matrix<int>
  {
    map[0 := map[0 := 2], 1 := map[0 := 2, 1 := 2], 2 := map[1 := 2, 2 := 2], 3 := map[2 := 2]]
  }

  /** The incidence matrix once all 4 calls are made. */
  function Path(): Matrix<int>
  {
    map[0 := map[0 := 2], 1 := map[0 := 2, 1 := 2], 2 := map[1 := 2, 2 := 2], 3 := map[2 := 2, 3 := 2], 4 := map[3 := 2]]
  }

  /** Call 1 gives key 0 to vertices 0 and 1. */
  lemma PathStep1()
    ensures Grouped(map[], [0, 1], 2) == Path1()
  {
    var m: Matrix<int> := map[];
    assert AllKeys(m) == {};
    NextKeyIs(m, 0);
    GroupedPairIs(m, 0, 1, 2, 0, Path1());
  }

  /** Call 2 gives key 1 to vertices 1 and 2. */
  lemma PathStep2()
    ensures Grouped(Path1(), [1, 2], 2) == Path2()
  {
    var m: Matrix<int> := Path1();
    assert 0 in m[0];
    NextKeyIs(m, 1);
    GroupedPairIs(m, 1, 2, 2, 1, Path2());
  }

  /** Call 3 gives key 2 to vertices 2 and 3. */
  lemma PathStep3()
    ensures Grouped(Path2(), [2, 3], 2) == Path3()
  {
    var m: Matrix<int> := Path2();
    assert 1 in m[1];
    NextKeyIs(m, 2);
    GroupedPairIs(m, 2, 3, 2, 2, Path3());
  }

  /** Call 4 gives key 3 to vertices 3 and 4. */
  lemma PathStep4()
    ensures Grouped(Path3(), [3, 4], 2) == Path()
  {
    var m: Matrix<int> := Path3();
    assert 2 in m[2];
    NextKeyIs(m, 3);
    GroupedPairIs(m, 3, 4, 2, 3, Path());
  }

  /** The first call listed two vertices. */
  lemma PathPairs1()
    ensures !HasHyperEdge(Path1()) && Incidences(Path1()) == 2
  {
    EmptyPairs();
    PathStep1();
    PairStep(map[], 0, 1, 2, Path1());
  }

  /** The first 2 calls listed two vertices each. */
  lemma PathPairs2()
    ensures !HasHyperEdge(Path2()) && Incidences(Path2()) == 4
  {
    PathPairs1();
    PathStep2();
    PairStep(Path1(), 1, 2, 2, Path2());
  }

  /** The first 3 calls listed two vertices each. */
  lemma PathPairs3()
    ensures !HasHyperEdge(Path3()) && Incidences(Path3()) == 6
  {
    PathPairs2();
    PathStep3();
    PairStep(Path2(), 2, 3, 2, Path3());
  }

  /** Every call so far listed two vertices: no hyperedge, two incidences per call. */
  lemma PathPairs()
    ensures !HasHyperEdge(Path()) && Incidences(Path()) == 8
  {
    PathPairs3();
    PathStep4();
    PairStep(Path3(), 3, 4, 2, Path());
  }

  /** Five vertices. */
  lemma PathSize()
    ensures |Path()| == 5
  {
    var m := Path();
    assert m.Keys == {0, 1, 2, 3, 4};
  }

  /** Three vertices of degree two. */
  lemma PathMiddle()
    ensures RowsOfSize(Path(), 2) == {1, 2, 3}
  {
    var m := Path();
    assert m.Keys == {0, 1, 2, 3, 4};
    RowsAre(m, 2, {1, 2, 3});
  }

  /** A path is a PATH: five vertices, four edges, and two ends. */
  lemma PathClass()
    ensures TopologyClass(Path()) == ClassPath
  {
    PathPairs();
    PathSize();
    PathMiddle();
  }

  // ---------------------------------------------------------------------------
  // Scenario: a triangle

  /** The incidence matrix after the first call. */
  function Triangle1(): Matrix<int>
  {
    map[0 := map[0 := 1], 1 := map[0 := 1]]
  }

  /** The incidence matrix after the first 2 calls. */
  function Triangle2(): Matrix<int>
  {
    map[0 := map[0 := 1], 1 := map[0 := 1, 1 := 1], 2 := map[1 := 1]]
  }

  /** The incidence matrix once all 3 calls are made. */
  function Triangle(): Matrix<int>
  {
    map[0 := map[0 := 1, 2 := 1], 1 := map[0 := 1, 1 := 1], 2 := map[1 := 1, 2 := 1]]
  }

  /** Call 1 gives key 0 to vertices 0 and 1. */
  lemma TriangleStep1()
    ensures Grouped(map[], [0, 1], 1) == Triangle1()
  {
    var m: Matrix<int> := map[];
    assert AllKeys(m) == {};
    NextKeyIs(m, 0);
    GroupedPairIs(m, 0, 1, 1, 0, Triangle1());
  }

  /** Call 2 gives key 1 to vertices 1 and 2. */
  lemma TriangleStep2()
    ensures Grouped(Triangle1(), [1, 2], 1) == Triangle2()
  {
    var m: Matrix<int> := Triangle1();
    assert 0 in m[0];
    NextKeyIs(m, 1);
    GroupedPairIs(m, 1, 2, 1, 1, Triangle2());
  }

  /** Call 3 gives key 2 to vertices 2 and 0. */
  lemma TriangleStep3()
    ensures Grouped(Triangle2(), [2, 0], 1) == Triangle()
  {
    var m: Matrix<int> := Triangle2();
    assert 1 in m[1];
    NextKeyIs(m, 2);
    GroupedPairIs(m, 2, 0, 1, 2, Triangle());
  }

  /** The first call listed two vertices. */
  lemma TrianglePairs1()
    ensures !HasHyperEdge(Triangle1()) && Incidences(Triangle1()) == 2
  {
    EmptyPairs();
    TriangleStep1();
    PairStep(map[], 0, 1, 1, Triangle1());
  }

  /** The first 2 calls listed two vertices each. */
  lemma TrianglePairs2()
    ensures !HasHyperEdge(Triangle2()) && Incidences(Triangle2()) == 4
  {
    TrianglePairs1();
    TriangleStep2();
    PairStep(Triangle1(), 1, 2, 1, Triangle2());
  }

  /** Every call so far listed two vertices: no hyperedge, two incidences per call. */
  lemma TrianglePairs()
    ensures !HasHyperEdge(Triangle()) && Incidences(Triangle()) == 6
  {
    TrianglePairs2();
    TriangleStep3();
    PairStep(Triangle2(), 2, 0, 1, Triangle());
  }

  /** A triangle has three vertices and no leaf. */
  lemma TriangleLeaves()
    ensures |Triangle()| == 3 && Leaves(Triangle()) == {}
  {
    var m := Triangle();
    assert m.Keys == {0, 1, 2};
    RowsAre(m, 1, {});
  }

  /** Every key of a triangle has two holders. */
  lemma TriangleHeld()
    ensures forall k :: k in AllKeys(Triangle()) ==> |Holders(Triangle(), k)| >= 2
  {
    var m := Triangle();
    forall k | k in AllKeys(m)
      ensures |Holders(m, k)| >= 2
    {
      var v :| v in m && k in m[v];
      assert v == 0 || v == 1 || v == 2;
      if k == 0 {
        HoldersAre(m, 0, {0, 1});
      } else if k == 1 {
        HoldersAre(m, 1, {1, 2});
      } else {
        assert k == 2;
        HoldersAre(m, 2, {0, 2});
      }
    }
  }

  /** Pruning a triangle finds no leaf and no singly-held key: nothing is removed. */
  lemma TrianglePruned()
    ensures |Triangle()| == 3 && Leaves(Triangle()) == {}
    ensures Pass(Triangle()) == Triangle()
    ensures Pruned(Triangle()) == Triangle()
  {
    TriangleLeaves();
    TriangleHeld();
    StablePruned(Triangle());
  }

  /** A triangle is NOT_FOUND: pruning finds no leaf, and it is neither a path nor a star. */
  lemma TriangleClass()
    ensures TopologyClass(Triangle()) == ClassNotFound
  {
    TrianglePairs();
    TrianglePruned();
  }

  // ---------------------------------------------------------------------------
  // Scenario: a triangle with a tail of two edges

  /** The incidence matrix after the first 4 calls. */
  function TriangleTail4(): Matrix<int>
  {
    map[0 := map[0 := 1, 2 := 1, 3 := 1], 1 := map[0 := 1, 1 := 1], 2 := map[1 := 1, 2 := 1], 3 := map[3 := 1]]
  }

  /** The incidence matrix once all 5 calls are made. */
  function TriangleTail(): Matrix<int>
  {
    map[0 := map[0 := 1, 2 := 1, 3 := 1], 1 := map[0 := 1, 1 := 1], 2 := map[1 := 1, 2 := 1], 3 := map[3 := 1, 4 := 1], 4 := map[4 := 1]]
  }

  /** Call 4 gives key 3 to vertices 0 and 3. */
  lemma TriangleTailStep1()
    ensures Grouped(Triangle(), [0, 3], 1) == TriangleTail4()
  {
    var m: Matrix<int> := Triangle();
    assert 2 in m[0];
    NextKeyIs(m, 3);
    GroupedPairIs(m, 0, 3, 1, 3, TriangleTail4());
  }

  /** Call 5 gives key 4 to vertices 3 and 4. */
  lemma TriangleTailStep2()
    ensures Grouped(TriangleTail4(), [3, 4], 1) == TriangleTail()
  {
    var m: Matrix<int> := TriangleTail4();
    assert 3 in m[0];
    NextKeyIs(m, 4);
    GroupedPairIs(m, 3, 4, 1, 4, TriangleTail());
  }

  /** The first 4 calls listed two vertices each. */
  lemma TriangleTailPairs4()
    ensures !HasHyperEdge(TriangleTail4()) && Incidences(TriangleTail4()) == 8
  {
    TrianglePairs();
    TriangleTailStep1();
    PairStep(Triangle(), 0, 3, 1, TriangleTail4());
  }

  /** Every call so far listed two vertices: no hyperedge, two incidences per call. */
  lemma TriangleTailPairs()
    ensures !HasHyperEdge(TriangleTail()) && Incidences(TriangleTail()) == 10
  {
    TriangleTailPairs4();
    TriangleTailStep2();
    PairStep(TriangleTail4(), 3, 4, 1, TriangleTail());
  }

  /** The network's own matrix once the first as-written pass has stripped row 3. */
  function TriangleTailOverlay1(): Matrix<int>
  {
    map[0 := map[0 := 1, 2 := 1, 3 := 1], 1 := map[0 := 1, 1 := 1], 2 := map[1 := 1, 2 := 1], 3 := map[3 := 1], 4 := map[4 := 1]]
  }

  /** The network's own matrix once the as-written pruning has stripped rows 3 and 0. */
  function TriangleTailStripped(): Matrix<int>
  {
    map[0 := map[0 := 1, 2 := 1], 1 := map[0 := 1, 1 := 1], 2 := map[1 := 1, 2 := 1], 3 := map[3 := 1], 4 := map[4 := 1]]
  }

  /** The copy in pass 1 once its leaves are removed. */
  function TriangleTailCore1(): Matrix<int>
  {
    map[0 := map[0 := 1, 2 := 1, 3 := 1], 1 := map[0 := 1, 1 := 1], 2 := map[1 := 1, 2 := 1], 3 := map[3 := 1, 4 := 1]]
  }

  /** The copy after pass 1. */
  function TriangleTailPass1(): Matrix<int>
  {
    map[0 := map[0 := 1, 2 := 1, 3 := 1], 1 := map[0 := 1, 1 := 1], 2 := map[1 := 1, 2 := 1], 3 := map[3 := 1]]
  }

  /** The leaves of the copy at pass 1. */
  lemma TriangleTailLeaves1()
    ensures Leaves<int>(TriangleTail()) == {4}
  {
    var m := TriangleTail();
    assert m.Keys == {0, 1, 2, 3, 4};
    RowsAre(m, 1, {4});
  }

  /** The copy at pass 1 without its leaves. */
  lemma TriangleTailRest1()
    ensures TriangleTail() - {4} == TriangleTailCore1()
  {
    var m := TriangleTail();
    var core: Matrix<int> := TriangleTailCore1();
    assert (m - {4}).Keys == core.Keys;
    forall v | v in core
      ensures (m - {4})[v] == core[v]
    {
    }
  }

  /** The keys that only one remaining row holds at pass 1. */
  lemma TriangleTailSingles1()
    ensures Singles<int>(TriangleTailCore1()) == {4}
  {
    var m: Matrix<int> := TriangleTailCore1();
    assert m.Keys == {0, 1, 2, 3};
    HoldersAre(m, 0, {0, 1});
    HoldersAre(m, 1, {1, 2});
    HoldersAre(m, 2, {0, 2});
    HoldersAre(m, 3, {0, 3});
    HoldersAre(m, 4, {3});
    assert 4 in m[3];
    SinglesAre(m, {4});
  }

  /** Pass 1 strips those keys from the remaining rows. */
  lemma TriangleTailStrip1()
    ensures TriangleTailPass1().Keys == TriangleTailCore1().Keys
    ensures forall v :: v in TriangleTailPass1() ==> TriangleTailPass1()[v] == TriangleTailCore1()[v] - {4}
  {
    var core: Matrix<int> := TriangleTailCore1();
    var r: Matrix<int> := TriangleTailPass1();
    assert r.Keys == core.Keys;
    forall v | v in r
      ensures r[v] == core[v] - {4}
    {
    }
  }

  /** Pass 1 of the pruning loop. */
  lemma TriangleTailPass1Is()
    ensures Leaves<int>(TriangleTail()) != {}
    ensures Pass<int>(TriangleTail()) == TriangleTailPass1()
  {
    TriangleTailLeaves1();
    TriangleTailRest1();
    TriangleTailSingles1();
    TriangleTailStrip1();
    PassIs(TriangleTail(), {4}, {4}, TriangleTailCore1(), TriangleTailPass1());
  }

  /** The copy in pass 2 once its leaves are removed. */
  function TriangleTailCore2(): Matrix<int>
  {
    map[0 := map[0 := 1, 2 := 1, 3 := 1], 1 := map[0 := 1, 1 := 1], 2 := map[1 := 1, 2 := 1]]
  }

  /** The leaves of the copy at pass 2. */
  lemma TriangleTailLeaves2()
    ensures Leaves<int>(TriangleTailPass1()) == {3}
  {
    var m := TriangleTailPass1();
    assert m.Keys == {0, 1, 2, 3};
    RowsAre(m, 1, {3});
  }

  /** The copy at pass 2 without its leaves. */
  lemma TriangleTailRest2()
    ensures TriangleTailPass1() - {3} == TriangleTailCore2()
  {
    var m := TriangleTailPass1();
    var core: Matrix<int> := TriangleTailCore2();
    assert (m - {3}).Keys == core.Keys;
    forall v | v in core
      ensures (m - {3})[v] == core[v]
    {
    }
  }

  /** The keys that only one remaining row holds at pass 2. */
  lemma TriangleTailSingles2()
    ensures Singles<int>(TriangleTailCore2()) == {3}
  {
    var m: Matrix<int> := TriangleTailCore2();
    assert m.Keys == {0, 1, 2};
    HoldersAre(m, 0, {0, 1});
    HoldersAre(m, 1, {1, 2});
    HoldersAre(m, 2, {0, 2});
    HoldersAre(m, 3, {0});
    assert 3 in m[0];
    SinglesAre(m, {3});
  }

  /** Pass 2 strips those keys from the remaining rows. */
  lemma TriangleTailStrip2()
    ensures Triangle().Keys == TriangleTailCore2().Keys
    ensures forall v :: v in Triangle() ==> Triangle()[v] == TriangleTailCore2()[v] - {3}
  {
    var core: Matrix<int> := TriangleTailCore2();
    var r: Matrix<int> := Triangle();
    assert r.Keys == core.Keys;
    forall v | v in r
      ensures r[v] == core[v] - {3}
    {
    }
  }

  /** Pass 2 of the pruning loop. */
  lemma TriangleTailPass2Is()
    ensures Leaves<int>(TriangleTailPass1()) != {}
    ensures Pass<int>(TriangleTailPass1()) == Triangle()
  {
    TriangleTailLeaves2();
    TriangleTailRest2();
    TriangleTailSingles2();
    TriangleTailStrip2();
    PassIs(TriangleTailPass1(), {3}, {3}, TriangleTailCore2(), Triangle());
  }

  /** Five vertices. */
  lemma TriangleTailSize()
    ensures |TriangleTail()| == 5
  {
    var m := TriangleTail();
    assert m.Keys == {0, 1, 2, 3, 4};
  }

  /** No vertex of degree above three. */
  lemma TriangleTailNarrow()
    ensures !HasWideRow(TriangleTail())
  {
    var m := TriangleTail();
    assert m.Keys == {0, 1, 2, 3, 4};
    assert m[0].Keys == {0, 2, 3};
  }

  /** Five vertices and five edges: not a path. */
  lemma TriangleTailNotPath()
    ensures !PathShape(TriangleTail())
  {
    TriangleTailPairs();
    TriangleTailSize();
  }

  /** The tail is peeled away and the triangle stays. */
  lemma TriangleTailPruned()
    ensures Pruned(TriangleTail()) == Triangle()
  {
    TriangleTailPass1Is();
    TriangleTailPass2Is();
    TrianglePruned();
    PrunedStep(TriangleTailPass1(), Triangle(), Triangle());
    PrunedStep(TriangleTail(), TriangleTailPass1(), Triangle());
  }

  /** The triangle stays after pruning: not a binary tree. */
  lemma TriangleTailNotTree()
    ensures !BinaryTreeShape(TriangleTail())
  {
    TriangleTailPruned();
    TrianglePruned();
  }

  /** The first pass, written back, strips key 4 from row 3. */
  lemma TriangleTailOverlay1Is()
    ensures Overlay(TriangleTail(), TriangleTailPass1()) == TriangleTailOverlay1()
  {
    var r := Overlay(TriangleTail(), TriangleTailPass1());
    assert r.Keys == TriangleTailOverlay1().Keys;
  }

  /** The second pass, written back, strips key 3 from row 0. */
  lemma TriangleTailOverlay2Is()
    ensures Overlay(TriangleTailOverlay1(), Triangle()) == TriangleTailStripped()
  {
    var r := Overlay(TriangleTailOverlay1(), Triangle());
    assert r.Keys == TriangleTailStripped().Keys;
  }

  /** The last pass writes back the triangle's rows unchanged. */
  lemma TriangleTailOverlay3Is()
    ensures Overlay(TriangleTailStripped(), Triangle()) == TriangleTailStripped()
  {
    var s := TriangleTailStripped();
    var t := Triangle();
    assert t.Keys == {0, 1, 2};
    forall v | v in t
      ensures t[v] == s[v]
    {
    }
    OverlaySame(s, t);
  }

  /** As written, pruning the triangle with a tail strips rows 3 and 0 of the network. */
  lemma TriangleTailResidue()
    ensures Residue(TriangleTail(), TriangleTail()) == TriangleTailStripped()
  {
    var s := TriangleTailStripped();
    TriangleTailPass1Is();
    TriangleTailPass2Is();
    TrianglePruned();
    TriangleTailOverlay1Is();
    TriangleTailOverlay2Is();
    TriangleTailOverlay3Is();
    ResidueLast(s, Triangle(), Triangle(), s);
    ResidueStep(TriangleTailOverlay1(), TriangleTailPass1(), Triangle(), s, s);
    ResidueStep(TriangleTail(), TriangleTail(), TriangleTailPass1(), TriangleTailOverlay1(), s);
  }

  /** No key of the stripped matrix has more than two holders. */
  lemma TriangleTailStrippedPairs()
    ensures !HasHyperEdge(TriangleTailStripped())
  {
    var m := TriangleTailStripped();
    HoldersAre(m, 0, {0, 1});
    HoldersAre(m, 1, {1, 2});
    HoldersAre(m, 2, {0, 2});
    HoldersAre(m, 3, {3});
    HoldersAre(m, 4, {4});
    forall k | k in AllKeys(m)
      ensures |Holders(m, k)| <= 2
    {
      var v :| v in m && k in m[v];
      assert 0 <= k <= 4;
    }
  }

  /** The stripped matrix has eight incidences, so four edges by the count's rule. */
  lemma TriangleTailStrippedEdges()
    ensures NumEdges(TriangleTailStripped()) == 4
  {
    TriangleTailStrippedKeys();
    TriangleTailStrippedSizes();
    IncidencesAre(TriangleTailStripped(), [0, 1, 2, 3, 4], 8);
  }

  lemma TriangleTailStrippedKeys()
    ensures TriangleTailStripped().Keys == Members([0, 1, 2, 3, 4])
  {
    assert Members([0, 1, 2, 3, 4]) == {0, 1, 2, 3, 4};
  }

  lemma TriangleTailStrippedSizes()
    ensures RowSizes(TriangleTailStripped(), [0, 1, 2, 3, 4]) == 8
  {
  }

  /** The stripped matrix has five vertices. */
  lemma TriangleTailStrippedSize()
    ensures |TriangleTailStripped()| == 5
  {
    var m := TriangleTailStripped();
    assert m.Keys == {0, 1, 2, 3, 4};
  }

  /** The stripped matrix has three vertices of degree two. */
  lemma TriangleTailStrippedMiddle()
    ensures RowsOfSize(TriangleTailStripped(), 2) == {0, 1, 2}
  {
    var m := TriangleTailStripped();
    assert m.Keys == {0, 1, 2, 3, 4};
    RowsAre(m, 2, {0, 1, 2});
  }

  /** The stripped matrix has two leaves. */
  lemma TriangleTailStrippedLeaves()
    ensures RowsOfSize(TriangleTailStripped(), 1) == {3, 4}
  {
    var m := TriangleTailStripped();
    assert m.Keys == {0, 1, 2, 3, 4};
    RowsAre(m, 1, {3, 4});
  }

  /** The stripped matrix has five vertices, four edges and two ends: a PATH. */
  lemma TriangleTailStrippedIsPath()
    ensures !HasHyperEdge(TriangleTailStripped())
    ensures PathShape(TriangleTailStripped())
  {
    TriangleTailStrippedPairs();
    TriangleTailStrippedEdges();
    TriangleTailStrippedSize();
    TriangleTailStrippedMiddle();
  }

  /** A triangle with a tail is NOT_FOUND. */
  lemma TriangleTailClass()
    ensures TopologyClass(TriangleTail()) == ClassNotFound
  {
    TriangleTailPairs();
    TriangleTailNotPath();
    TriangleTailNotTree();
    TriangleTailSize();
    TriangleTailLeaves1();
  }

  /**
   * As written, the first classification answers NOT_FOUND but also strips rows 3
   * and 0 of the network, and a second classification answers PATH.
   */
  lemma TriangleTailClassAsWritten()
    ensures TopologyClassAsWritten(TriangleTail()) == (ClassNotFound, TriangleTailStripped())
    ensures TopologyClassAsWritten(TriangleTailStripped()).0 == ClassPath
  {
    TriangleTailFirstCall();
    TriangleTailSecondCall();
  }

  /** The first classification as written: NOT_FOUND, and rows 3 and 0 stripped. */
  lemma TriangleTailFirstCall()
    ensures TopologyClassAsWritten(TriangleTail()) == (ClassNotFound, TriangleTailStripped())
  {
    TriangleTailPairs();
    TriangleTailNotPath();
    TriangleTailNotTree();
    TriangleTailNarrow();
    TriangleTailResidue();
    TriangleTailStrippedSize();
    TriangleTailStrippedLeaves();
    AsWrittenOther(TriangleTail(), TriangleTailStripped());
  }

  /** The second classification as written sees the stripped matrix: a PATH. */
  lemma TriangleTailSecondCall()
    ensures TopologyClassAsWritten(TriangleTailStripped()).0 == ClassPath
  {
    TriangleTailStrippedIsPath();
  }

  /** Builds the triangle with a tail, as the example program builds its network. */
  method BuildTriangleTail() returns (g: HyperGraph<int, int>)
    ensures fresh(g) && g.adjacentMatrix == TriangleTail()
  {
    g := new HyperGraph<int, int>();
    g.Group([0, 1], 1, CaptiveMarket);
    TriangleStep1();
    g.Group([1, 2], 1, CaptiveMarket);
    TriangleStep2();
    g.Group([2, 0], 1, CaptiveMarket);
    TriangleStep3();
    g.Group([0, 3], 1, CaptiveMarket);
    TriangleTailStep1();
    g.Group([3, 4], 1, CaptiveMarket);
    TriangleTailStep2();
  }

  /** Classifying twice as written: NOT_FOUND, then PATH. */
  method ClassifyTwiceAsWritten() returns (first: int, second: int)
    ensures first == ClassNotFound && second == ClassPath
  {
    var g := BuildTriangleTail();
    TriangleTailClassAsWritten();
    first := IdentifyTopologyClassAsWritten(g);
    second := IdentifyTopologyClassAsWritten(g);
  }

  /** Classifying twice with a private pruning copy: NOT_FOUND both times. */
  method ClassifyTwice() returns (first: int, second: int)
    ensures first == ClassNotFound && second == ClassNotFound
  {
    var g := BuildTriangleTail();
    TriangleTailClass();
    first := IdentifyTopologyClass(g);
    second := IdentifyTopologyClass(g);
  }

  // ---------------------------------------------------------------------------
  // Scenario: stars with three and four spokes

  /** The incidence matrix after the first call. */
  function Star1(): Matrix<int>
  {
    map[0 := map[0 := 3], 1 := map[0 := 3]]
  }

  /** The incidence matrix after the first 2 calls. */
  function Star2(): Matrix<int>
  {
    map[0 := map[0 := 3, 1 := 3], 1 := map[0 := 3], 2 := map[1 := 3]]
  }

  /** The incidence matrix once all 3 calls are made. */
  function Star(): Matrix<int>
  {
    map[0 := map[0 := 3, 1 := 3, 2 := 3], 1 := map[0 := 3], 2 := map[1 := 3], 3 := map[2 := 3]]
  }

  /** Call 1 gives key 0 to vertices 0 and 1. */
  lemma StarStep1()
    ensures Grouped(map[], [0, 1], 3) == Star1()
  {
    var m: Matrix<int> := map[];
    assert AllKeys(m) == {};
    NextKeyIs(m, 0);
    GroupedPairIs(m, 0, 1, 3, 0, Star1());
  }

  /** Call 2 gives key 1 to vertices 0 and 2. */
  lemma StarStep2()
    ensures Grouped(Star1(), [0, 2], 3) == Star2()
  {
    var m: Matrix<int> := Star1();
    assert 0 in m[0];
    NextKeyIs(m, 1);
    GroupedPairIs(m, 0, 2, 3, 1, Star2());
  }

  /** Call 3 gives key 2 to vertices 0 and 3. */
  lemma StarStep3()
    ensures Grouped(Star2(), [0, 3], 3) == Star()
  {
    var m: Matrix<int> := Star2();
    assert 1 in m[0];
    NextKeyIs(m, 2);
    GroupedPairIs(m, 0, 3, 3, 2, Star());
  }

  /** The first call listed two vertices. */
  lemma StarPairs1()
    ensures !HasHyperEdge(Star1()) && Incidences(Star1()) == 2
  {
    EmptyPairs();
    StarStep1();
    PairStep(map[], 0, 1, 3, Star1());
  }

  /** The first 2 calls listed two vertices each. */
  lemma StarPairs2()
    ensures !HasHyperEdge(Star2()) && Incidences(Star2()) == 4
  {
    StarPairs1();
    StarStep2();
    PairStep(Star1(), 0, 2, 3, Star2());
  }

  /** Every call so far listed two vertices: no hyperedge, two incidences per call. */
  lemma StarPairs()
    ensures !HasHyperEdge(Star()) && Incidences(Star()) == 6
  {
    StarPairs2();
    StarStep3();
    PairStep(Star2(), 0, 3, 3, Star());
  }

  /** The copy in pass 1 once its leaves are removed. */
  function StarCore1(): Matrix<int>
  {
    map[0 := map[0 := 3, 1 := 3, 2 := 3]]
  }

  /** The copy after pass 1. */
  function StarPass1(): Matrix<int>
  {
    map[0 := map[]]
  }

  /** The leaves of the copy at pass 1. */
  lemma StarLeaves1()
    ensures Leaves<int>(Star()) == {1, 2, 3}
  {
    var m := Star();
    assert m.Keys == {0, 1, 2, 3};
    RowsAre(m, 1, {1, 2, 3});
  }

  /** The copy at pass 1 without its leaves. */
  lemma StarRest1()
    ensures Star() - {1, 2, 3} == StarCore1()
  {
    var m := Star();
    var core: Matrix<int> := StarCore1();
    assert (m - {1, 2, 3}).Keys == core.Keys;
    forall v | v in core
      ensures (m - {1, 2, 3})[v] == core[v]
    {
    }
  }

  /** The keys that only one remaining row holds at pass 1. */
  lemma StarSingles1()
    ensures Singles<int>(StarCore1()) == {0, 1, 2}
  {
    var m: Matrix<int> := StarCore1();
    assert m.Keys == {0};
    HoldersAre(m, 0, {0});
    HoldersAre(m, 1, {0});
    HoldersAre(m, 2, {0});
    assert 0 in m[0];
    assert 1 in m[0];
    assert 2 in m[0];
    SinglesAre(m, {0, 1, 2});
  }

  /** Pass 1 strips those keys from the remaining rows. */
  lemma StarStrip1()
    ensures StarPass1().Keys == StarCore1().Keys
    ensures forall v :: v in StarPass1() ==> StarPass1()[v] == StarCore1()[v] - {0, 1, 2}
  {
    var core: Matrix<int> := StarCore1();
    var r: Matrix<int> := StarPass1();
    assert r.Keys == core.Keys;
    forall v | v in r
      ensures r[v] == core[v] - {0, 1, 2}
    {
    }
  }

  /** Pass 1 of the pruning loop. */
  lemma StarPass1Is()
    ensures Leaves<int>(Star()) != {}
    ensures Pass<int>(Star()) == StarPass1()
  {
    StarLeaves1();
    StarRest1();
    StarSingles1();
    StarStrip1();
    PassIs(Star(), {1, 2, 3}, {0, 1, 2}, StarCore1(), StarPass1());
  }

  /** Four vertices. */
  lemma StarSize()
    ensures |Star()| == 4
  {
    var m := Star();
    assert m.Keys == {0, 1, 2, 3};
  }

  /** Three leaves. */
  lemma StarLeaves()
    ensures RowsOfSize(Star(), 1) == {1, 2, 3}
  {
    var m := Star();
    assert m.Keys == {0, 1, 2, 3};
    RowsAre(m, 1, {1, 2, 3});
  }

  /** No vertex of degree two. */
  lemma StarNoDegreeTwo()
    ensures RowsOfSize(Star(), 2) == {}
  {
    var m := Star();
    assert m.Keys == {0, 1, 2, 3};
    RowsAre(m, 2, {});
  }

  /** Pruning a star with three spokes leaves the centre with an empty row. */
  lemma StarPruned()
    ensures !BinaryTreeShape(Star())
  {
    StarPass1Is();
    ZeroRowBlocks(StarPass1(), 0);
    var p := Pruned(StarPass1());
    assert 0 in p.Keys;
    PrunedStep(Star(), StarPass1(), p);
    assert |Pruned(Star())| != 0;
  }

  /**
   * A star with three spokes is a STAR.  Its degrees are at most three, but pruning
   * leaves the centre with an empty row, so it is not a binary tree.
   */
  lemma StarClass()
    ensures !BinaryTreeShape(Star())
    ensures TopologyClass(Star()) == ClassStar
  {
    StarPairs();
    StarSize();
    StarLeaves();
    StarNoDegreeTwo();
    StarPruned();
  }

  /** The incidence matrix once all 4 calls are made. */
  function WideStar(): Matrix<int>
  {
    map[0 := map[0 := 3, 1 := 3, 2 := 3, 3 := 3], 1 := map[0 := 3], 2 := map[1 := 3], 3 := map[2 := 3], 4 := map[3 := 3]]
  }

  /** Call 4 gives key 3 to vertices 0 and 4. */
  lemma WideStarStep1()
    ensures Grouped(Star(), [0, 4], 3) == WideStar()
  {
    var m: Matrix<int> := Star();
    assert 2 in m[0];
    NextKeyIs(m, 3);
    GroupedPairIs(m, 0, 4, 3, 3, WideStar());
  }

  /** Every call so far listed two vertices: no hyperedge, two incidences per call. */
  lemma WideStarPairs()
    ensures !HasHyperEdge(WideStar()) && Incidences(WideStar()) == 8
  {
    StarPairs();
    WideStarStep1();
    PairStep(Star(), 0, 4, 3, WideStar());
  }

  /** Five vertices. */
  lemma WideStarSize()
    ensures |WideStar()| == 5
  {
    var m := WideStar();
    assert m.Keys == {0, 1, 2, 3, 4};
  }

  /** Four leaves. */
  lemma WideStarLeaves()
    ensures RowsOfSize(WideStar(), 1) == {1, 2, 3, 4}
  {
    var m := WideStar();
    assert m.Keys == {0, 1, 2, 3, 4};
    RowsAre(m, 1, {1, 2, 3, 4});
  }

  /** No vertex of degree two. */
  lemma WideStarNoDegreeTwo()
    ensures RowsOfSize(WideStar(), 2) == {}
  {
    var m := WideStar();
    assert m.Keys == {0, 1, 2, 3, 4};
    RowsAre(m, 2, {});
  }

  /** The centre has degree four. */
  lemma WideStarCentre()
    ensures HasWideRow(WideStar())
  {
    assert |WideStar()[0]| == 4;
  }

  /** A star with four spokes is a STAR: the centre's degree four rules out a binary tree. */
  lemma WideStarClass()
    ensures TopologyClass(WideStar()) == ClassStar
  {
    WideStarPairs();
    WideStarSize();
    WideStarLeaves();
    WideStarNoDegreeTwo();
    WideStarCentre();
  }

  // ---------------------------------------------------------------------------
  // Scenario: a path whose two ends also have a group of their own

  /** The incidence matrix after the first call. */
  function LoopedPath1(): Matrix<int>
  {
    map[0 := map[0 := 1], 1 := map[0 := 1]]
  }

  /** The incidence matrix after the first 2 calls. */
  function LoopedPath2(): Matrix<int>
  {
    map[0 := map[0 := 1], 1 := map[0 := 1, 1 := 1], 2 := map[1 := 1]]
  }

  /** The incidence matrix after the first 3 calls: the path 0-1-2-3. */
  function LoopedPath3(): Matrix<int>
  {
    map[0 := map[0 := 1], 1 := map[0 := 1, 1 := 1], 2 := map[1 := 1, 2 := 1], 3 := map[2 := 1]]
  }

  /** The incidence matrix after the first 4 calls. */
  function LoopedPath4(): Matrix<int>
  {
    map[0 := map[0 := 1, 3 := 1], 1 := map[0 := 1, 1 := 1], 2 := map[1 := 1, 2 := 1], 3 := map[2 := 1]]
  }

  /** The incidence matrix once all 5 calls are made. */
  function LoopedPath(): Matrix<int>
  {
    map[0 := map[0 := 1, 3 := 1], 1 := map[0 := 1, 1 := 1], 2 := map[1 := 1, 2 := 1], 3 := map[2 := 1, 4 := 1]]
  }

  /** Call 1 gives key 0 to vertices 0 and 1. */
  lemma LoopedPathStep1()
    ensures Grouped(map[], [0, 1], 1) == LoopedPath1()
  {
    var m: Matrix<int> := map[];
    assert AllKeys(m) == {};
    NextKeyIs(m, 0);
    GroupedPairIs(m, 0, 1, 1, 0, LoopedPath1());
  }

  /** Call 2 gives key 1 to vertices 1 and 2. */
  lemma LoopedPathStep2()
    ensures Grouped(LoopedPath1(), [1, 2], 1) == LoopedPath2()
  {
    var m: Matrix<int> := LoopedPath1();
    assert 0 in m[0];
    NextKeyIs(m, 1);
    GroupedPairIs(m, 1, 2, 1, 1, LoopedPath2());
  }

  /** Call 3 gives key 2 to vertices 2 and 3. */
  lemma LoopedPathStep3()
    ensures Grouped(LoopedPath2(), [2, 3], 1) == LoopedPath3()
  {
    var m: Matrix<int> := LoopedPath2();
    assert 1 in m[1];
    NextKeyIs(m, 2);
    GroupedPairIs(m, 2, 3, 1, 2, LoopedPath3());
  }

  /** Call 4 gives key 3 to vertex 0 alone. */
  lemma LoopedPathStep4()
    ensures Grouped(LoopedPath3(), [0], 1) == LoopedPath4()
  {
    var m: Matrix<int> := LoopedPath3();
    assert 2 in m[2];
    NextKeyIs(m, 3);
    GroupedSingleIs(m, 0, 1, 3, LoopedPath4());
  }

  /** Call 5 gives key 4 to vertex 3 alone. */
  lemma LoopedPathStep5()
    ensures Grouped(LoopedPath4(), [3], 1) == LoopedPath()
  {
    var m: Matrix<int> := LoopedPath4();
    assert 3 in m[0];
    NextKeyIs(m, 4);
    GroupedSingleIs(m, 3, 1, 4, LoopedPath());
  }

  /** The first call listed two vertices. */
  lemma LoopedPathPairs1()
    ensures !HasHyperEdge(LoopedPath1()) && Incidences(LoopedPath1()) == 2
  {
    EmptyPairs();
    LoopedPathStep1();
    PairStep(map[], 0, 1, 1, LoopedPath1());
  }

  /** The first 2 calls listed two vertices each. */
  lemma LoopedPathPairs2()
    ensures !HasHyperEdge(LoopedPath2()) && Incidences(LoopedPath2()) == 4
  {
    LoopedPathPairs1();
    LoopedPathStep2();
    PairStep(LoopedPath1(), 1, 2, 1, LoopedPath2());
  }

  /** The first 3 calls listed two vertices each. */
  lemma LoopedPathPairs3()
    ensures !HasHyperEdge(LoopedPath3()) && Incidences(LoopedPath3()) == 6
  {
    LoopedPathPairs2();
    LoopedPathStep3();
    PairStep(LoopedPath2(), 2, 3, 1, LoopedPath3());
  }

  /** The two one-vertex calls add no hyperedge and one incidence each. */
  lemma LoopedPathEdges()
    ensures !HasHyperEdge(LoopedPath()) && Incidences(LoopedPath()) == 8
  {
    LoopedPathPairs3();
    LoopedPathStep4();
    SingleStep(LoopedPath3(), 0, 1, LoopedPath4());
    LoopedPathStep5();
    SingleStep(LoopedPath4(), 3, 1, LoopedPath());
  }

  /** Every row has two keys, so there is no leaf. */
  lemma LoopedPathLeaves()
    ensures Leaves(LoopedPath()) == {}
  {
    var m := LoopedPath();
    assert m.Keys == {0, 1, 2, 3};
    RowsAre(m, 1, {});
  }

  /** Keys 3 and 4 each have a single holder. */
  lemma LoopedPathSingles()
    ensures Singles(LoopedPath()) == {3, 4}
  {
    var m := LoopedPath();
    assert m.Keys == {0, 1, 2, 3};
    HoldersAre(m, 0, {0, 1});
    HoldersAre(m, 1, {1, 2});
    HoldersAre(m, 2, {2, 3});
    HoldersAre(m, 3, {0});
    HoldersAre(m, 4, {3});
    assert 3 in m[0];
    assert 4 in m[3];
    SinglesAre(m, {3, 4});
  }

  /** With no leaf, the copy keeps all its rows. */
  lemma LoopedPathRest()
    ensures LoopedPath() - {} == LoopedPath()
  {
    var m := LoopedPath();
    assert (m - {}).Keys == m.Keys;
  }

  /** Stripping keys 3 and 4 from every row leaves the path 0-1-2-3. */
  lemma LoopedPathStrip()
    ensures LoopedPath3().Keys == LoopedPath().Keys
    ensures forall v :: v in LoopedPath3() ==> LoopedPath3()[v] == LoopedPath()[v] - {3, 4}
  {
    var m := LoopedPath();
    var r := LoopedPath3();
    assert r.Keys == m.Keys;
    assert r[0] == m[0] - {3, 4};
    assert r[1] == m[1] - {3, 4};
    assert r[2] == m[2] - {3, 4};
    assert r[3] == m[3] - {3, 4};
  }

  /** The only pass removes no leaf but strips keys 3 and 4. */
  lemma LoopedPathPass()
    ensures Pass(LoopedPath()) == LoopedPath3()
  {
    LoopedPathLeaves();
    LoopedPathRest();
    LoopedPathSingles();
    LoopedPathStrip();
    PassIs(LoopedPath(), {}, {3, 4}, LoopedPath(), LoopedPath3());
  }

  /** The path 0-1-2-3 has its two ends as leaves. */
  lemma LoopedPathEnds()
    ensures Leaves(LoopedPath3()) != {}
    ensures Leaves(LoopedPath3()) == {0, 3}
  {
    var r := LoopedPath3();
    assert r.Keys == {0, 1, 2, 3};
    RowsAre(r, 1, {0, 3});
  }

  /**
   * The loop stops after its first pass, which removed no leaf, although that pass's
   * strip has just made vertices 0 and 3 leaves: the copy is not emptied.
   */
  lemma LoopedPathPruned()
    ensures Pruned(LoopedPath()) == LoopedPath3()
    ensures Leaves(Pruned(LoopedPath())) == {0, 3}
    ensures !BinaryTreeShape(LoopedPath())
  {
    LoopedPathLeaves();
    LoopedPathPass();
    LoopedPathEnds();
    assert 0 in LoopedPath3();
  }

  /** Four vertices, every one of degree two. */
  lemma LoopedPathSizes()
    ensures |LoopedPath()| == 4
    ensures RowsOfSize(LoopedPath(), 2) == {0, 1, 2, 3}
  {
    var m := LoopedPath();
    assert m.Keys == {0, 1, 2, 3};
    RowsAre(m, 2, {0, 1, 2, 3});
  }

  /** The path with two one-vertex groups is NOT_FOUND: not a path, a binary tree or a star. */
  lemma LoopedPathClass()
    ensures TopologyClass(LoopedPath()) == ClassNotFound
  {
    LoopedPathEdges();
    LoopedPathSizes();
    LoopedPathLeaves();
    LoopedPathPruned();
  }

  // ---------------------------------------------------------------------------
  // Scenario: one group of three sellers

  /** One group of three sellers holds a key with three holders. */
  lemma ThreeSellers()
    ensures HasHyperEdge(Grouped<int>(map[], [0, 1, 2], 1))
  {
    ThreeMembers();
    GroupedHyperEdge<int>(map[], [0, 1, 2], 1);
  }

  /** A call listing three distinct vertices. */
  lemma ThreeMembers()
    ensures |Members([0, 1, 2])| == 3
  {
    assert Members([0, 1, 2]) == {0, 1, 2};
  }

  /** One group of three sellers makes a hypergraph, which is NOT_FOUND. */
  method HyperGraphExample() returns (hyper: bool, c: int)
    ensures hyper && c == ClassNotFound
  {
    var g := new HyperGraph<int, int>();
    g.Group([0, 1, 2], 1, CaptiveMarket);
    ThreeSellers();
    hyper := g.IsHyperGraph();
    c := IdentifyTopologyClass(g);
  }
}
