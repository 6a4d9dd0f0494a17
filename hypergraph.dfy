/**
 * The incidence store of a competition network (src/sketch/HyperGraph.kt).
 *
 * A network is a hypergraph: vertices are sellers, a "group" (hyperedge) links the
 * sellers that compete directly and carries one weight.  The only authoritative state
 * is the incidence matrix, a map from vertex index to a row, and a row maps edge keys
 * to the group's weight.  The weight is only stored and compared for presence, so it
 * is the opaque type parameter W; the per-vertex payload is the type parameter T.
 */
module HyperGraph {

  /** One vertex's row of the incidence matrix: edge key -> weight of that group. */
  type Row<W> = map<int, W>

  /** The incidence matrix: vertex index -> row. */
  type Matrix<W> = map<int, Row<W>>

  /** What the group-editing operations report; the source never completes them. */
  datatype Outcome = Completed | NotImplemented

  /** One call of `group`: the listed vertex indices and the weight of the new group. */
  datatype GroupCall<W> = GroupCall(members: seq<int>, weight: W)

  /** The row of vertex v, or the empty row when v has none. */
  function RowOf<W>(m: Matrix<W>, v: int): Row<W>
  {
    if v in m then m[v] else map[]
  }

  /** The distinct indices listed in a call. */
  function Members(vs: seq<int>): set<int>
  {
    set v | v in vs
  }

  /** Every edge key that occurs in some row. */
  function AllKeys<W>(m: Matrix<W>): set<int>
  {
    set v, k | v in m && k in m[v] :: k
  }

  /** The vertices whose row holds edge key k. */
  function Holders<W>(m: Matrix<W>, k: int): set<int>
  {
    set v | v in m && k in m[v]
  }

  /** Some edge key is incident to more than two vertices. */
  ghost predicate HasHyperEdge<W>(m: Matrix<W>)
  {
    exists k :: k in AllKeys(m) && |Holders(m, k)| > 2
  }

  /** The sum of the sizes of the rows of the vertices in vs (absent rows count 0). */
  ghost function SumSizes<W>(m: Matrix<W>, vs: set<int>): nat
    decreases vs
  {
    if vs == {} then 0
    else
      NonEmptyHasElement(vs);
      var v :| v in vs;
      |RowOf(m, v)| + SumSizes(m, vs - {v})
  }

  /** The number of (vertex, edge key) incidences. */
  ghost function Incidences<W>(m: Matrix<W>): nat
  {
    SumSizes(m, m.Keys)
  }

  /** The edge count: incidences divided by two, as if every group had two members. */
  ghost function NumEdges<W>(m: Matrix<W>): nat
  {
    Incidences(m) / 2
  }

  /** The greatest element of a non-empty set. */
  ghost function MaxOf(s: set<int>): (r: int)
    requires s != {}
    ensures r in s
    ensures forall x :: x in s ==> x <= r
    decreases s
  {
    NonEmptyHasElement(s);
    var x :| x in s;
    if s == {x} then x
    else
      var y := MaxOf(s - {x});
      assert forall z :: z in s ==> z == x || z in s - {x};
      if x < y then y else x
  }

  /** The key a new group receives: one more than the greatest key in any row, or 0. */
  ghost function NextKey<W>(m: Matrix<W>): (r: int)
    ensures AllKeys(m) == {} ==> r == 0
    ensures AllKeys(m) != {} ==> r - 1 in AllKeys(m)
    ensures forall v, k :: v in m && k in m[v] ==> k < r
  {
    var keys := AllKeys(m);
    var r := if keys == {} then 0 else MaxOf(keys) + 1;
    assert forall v, k :: v in m && k in m[v] ==> k < r by {
      forall v, k | v in m && k in m[v]
        ensures k < r
      {
        assert k in keys;
      }
    }
    r
  }

  /** Writes key := w into the row of every listed vertex, creating rows as needed. */
  ghost function AddToRows<W>(m: Matrix<W>, vs: seq<int>, key: int, w: W): Matrix<W>
  {
    map v | v in m.Keys + Members(vs) :: if v in Members(vs) then RowOf(m, v)[key := w] else m[v]
  }

  /** The incidence matrix after `group(vs, w, _)`. */
  ghost function Grouped<W>(m: Matrix<W>, vs: seq<int>, w: W): (r: Matrix<W>)
    ensures r.Keys == m.Keys + Members(vs)
    ensures forall v :: v in vs ==> NextKey(m) in r[v] && r[v][NextKey(m)] == w
    ensures forall v, k :: v in vs && k in RowOf(m, v) ==> k in r[v] && r[v][k] == m[v][k]
    ensures forall v :: v in vs ==> |r[v]| == |RowOf(m, v)| + 1
    ensures forall v :: v in m && v !in vs ==> r[v] == m[v]
  {
    var key := NextKey(m);
    var r := AddToRows(m, vs, key, w);
    forall v | v in vs
      ensures |r[v]| == |RowOf(m, v)| + 1
    {
      assert key !in RowOf(m, v);
    }
    r
  }

  /** The payload map after `group(vs, _, f)`: every listed index holds f of itself. */
  ghost function Instanced<T>(vertices: map<int, T>, vs: seq<int>, f: int -> T): (r: map<int, T>)
    ensures r.Keys == vertices.Keys + Members(vs)
    ensures forall i :: i in vs ==> r[i] == f(i)
    ensures forall i :: i in vertices && i !in vs ==> r[i] == vertices[i]
  {
    map i | i in vertices.Keys + Members(vs) :: if i in Members(vs) then f(i) else vertices[i]
  }

  /** The network built by a sequence of `group` calls on an empty network. */
  ghost function Build<W>(calls: seq<GroupCall<W>>): Matrix<W>
    decreases |calls|
  {
    if calls == [] then map[]
    else
      var last := calls[|calls| - 1];
      Grouped(Build(calls[..|calls| - 1]), last.members, last.weight)
  }

  /**
   * The invariants `group` maintains: payloads and rows exist for the same indices,
   * no row is empty, and a key carries the same weight in every row that holds it.
   */
  ghost predicate WellFormed<T, W>(vertices: map<int, T>, m: Matrix<W>)
  {
    && vertices.Keys == m.Keys
    && (forall v :: v in m ==> |m[v]| > 0)
    && (forall u, v, k :: u in m && v in m && k in m[u] && k in m[v] ==> m[u][k] == m[v][k])
  }

  /** Counts the rows that hold edge key k. */
  method CountHolders<W>(m: Matrix<W>, k: int) returns (n: nat)
    ensures n == |Holders(m, k)|
  {
    n := 0;
    var rows := m.Keys;
    while rows != {}
      invariant rows <= m.Keys
      invariant n == |set v | v in m.Keys - rows && k in m[v]|
      decreases rows
    {
      NonEmptyHasElement(rows);
      var row :| row in rows;
      ghost var before := set v | v in m.Keys - rows && k in m[v];
      if k in m[row] {
        n := n + 1;
      }
      rows := rows - {row};
      assert (set v | v in m.Keys - rows && k in m[v]) == before + (if k in m[row] then {row} else {});
    }
    assert (set v | v in m.Keys - rows && k in m[v]) == Holders(m, k);
  }

  class HyperGraph<T, W> {
    /** Vertex index -> payload; overwritten each time the index is grouped again. */
    var vertices: map<int, T>
    /** Vertex index -> (edge key -> weight). */
    var adjacentMatrix: Matrix<W>

    ghost predicate Valid()
      reads this
    {
      WellFormed(vertices, adjacentMatrix)
    }

    constructor ()
      ensures vertices == map[] && adjacentMatrix == map[]
      ensures Valid()
    {
      vertices := map[];
      adjacentMatrix := map[];
    }

    /** The key for the next group: the greatest key in any row plus one, or 0. */
    method NextEdgeKey() returns (key: int)
      ensures key == NextKey(adjacentMatrix)
    {
      var keys := AllKeys(adjacentMatrix);
      if keys == {} {
        return 0;
      }
      NonEmptyHasElement(keys);
      var greatest :| greatest in keys;
      var rest := keys - {greatest};
      while rest != {}
        invariant rest <= keys && greatest in keys
        invariant forall k :: k in keys - rest ==> k <= greatest
        decreases rest
      {
        NonEmptyHasElement(rest);
        var k :| k in rest;
        if greatest < k {
          greatest := k;
        }
        assert keys - (rest - {k}) == (keys - rest) + {k};
        rest := rest - {k};
      }
      assert keys - rest == keys;
      assert MaxOf(keys) <= greatest;
      key := greatest + 1;
    }

    /**
     * Creates a new group of the listed vertices with weight w: every listed row gets
     * the fresh key with weight w, and every listed payload becomes f of its index.
     */
    method Group(vs: seq<int>, w: W, f: int -> T)
      modifies this
      ensures adjacentMatrix == Grouped(old(adjacentMatrix), vs, w)
      ensures vertices == Instanced(old(vertices), vs, f)
      ensures old(Valid()) ==> Valid()
    {
      var key := NextEdgeKey();
      ghost var m0, v0 := adjacentMatrix, vertices;
      var i := 0;
      while i < |vs|
        invariant 0 <= i <= |vs|
        invariant adjacentMatrix == AddToRows(m0, vs[..i], key, w)
        invariant vertices == Instanced(v0, vs[..i], f)
      {
        var v := vs[i];
        AddToRowsStep(m0, vs, i, key, w);
        InstancedStep(v0, vs, i, f);
        // a missing row is created empty before the key is written into it
        var row := if v in adjacentMatrix then adjacentMatrix[v] else map[];
        adjacentMatrix := adjacentMatrix[v := row[key := w]];
        vertices := vertices[v := f(v)];
        i := i + 1;
      }
      assert vs[..|vs|] == vs;
      if WellFormed(v0, m0) {
        GroupPreservesWellFormed(v0, m0, vs, w, f);
      }
    }

    /** Adding one vertex to an existing group is declared but not implemented. */
    method AddGroup(vertex: int, group: int) returns (r: Outcome)
      ensures !r.Completed?
    {
      r := NotImplemented;
    }

    /** Removing one vertex from a group is declared but not implemented. */
    method RemoveGroup(vertex: int, group: int) returns (r: Outcome)
      ensures !r.Completed?
    {
      r := NotImplemented;
    }

    /** Is some edge key present in more than two rows? */
    method IsHyperGraph() returns (b: bool)
      ensures b == HasHyperEdge(adjacentMatrix)
    {
      var columns := AllKeys(adjacentMatrix);
      while columns != {}
        invariant columns <= AllKeys(adjacentMatrix)
        invariant forall k :: k in AllKeys(adjacentMatrix) && k !in columns ==> |Holders(adjacentMatrix, k)| <= 2
        decreases columns
      {
        NonEmptyHasElement(columns);
        var column :| column in columns;
        var numVerticesInGroup := CountHolders(adjacentMatrix, column);
        if numVerticesInGroup > 2 {
          return true;
        }
        columns := columns - {column};
      }
      return false;
    }

    /** The number of incidences divided by two. */
    method NumberEdges() returns (n: int)
      ensures n == NumEdges(adjacentMatrix)
    {
      var numEdges := 0;
      var rows := adjacentMatrix.Keys;
      while rows != {}
        invariant rows <= adjacentMatrix.Keys
        invariant numEdges == SumSizes(adjacentMatrix, adjacentMatrix.Keys - rows)
        decreases rows
      {
        NonEmptyHasElement(rows);
        var row :| row in rows;
        ghost var done := adjacentMatrix.Keys - rows;
        numEdges := numEdges + |adjacentMatrix[row]|;
        rows := rows - {row};
        assert adjacentMatrix.Keys - rows == done + {row};
        assert done + {row} - {row} == done;
        SumSizesRemove(adjacentMatrix, done + {row}, row);
      }
      assert adjacentMatrix.Keys - rows == adjacentMatrix.Keys;
      n := numEdges / 2;
    }
  }

  // ---------------------------------------------------------------------------
  // Lemmas about the loop steps of Group

  lemma AddToRowsStep<W>(m: Matrix<W>, vs: seq<int>, i: int, key: int, w: W)
    requires 0 <= i < |vs|
    ensures var a := AddToRows(m, vs[..i], key, w);
            AddToRows(m, vs[..i + 1], key, w) == a[vs[i] := RowOf(a, vs[i])[key := w]]
  {
    var a := AddToRows(m, vs[..i], key, w);
    var b := AddToRows(m, vs[..i + 1], key, w);
    assert Members(vs[..i + 1]) == Members(vs[..i]) + {vs[i]} by {
      assert vs[..i + 1] == vs[..i] + [vs[i]];
    }
    var v := vs[i];
    if v in Members(vs[..i]) {
      assert RowOf(a, v) == RowOf(m, v)[key := w];
      assert RowOf(a, v)[key := w] == RowOf(m, v)[key := w];
    } else {
      assert RowOf(a, v) == RowOf(m, v);
    }
    assert b == a[v := RowOf(a, v)[key := w]];
  }

  lemma InstancedStep<T>(vertices: map<int, T>, vs: seq<int>, i: int, f: int -> T)
    requires 0 <= i < |vs|
    ensures Instanced(vertices, vs[..i + 1], f) == Instanced(vertices, vs[..i], f)[vs[i] := f(vs[i])]
  {
    assert Members(vs[..i + 1]) == Members(vs[..i]) + {vs[i]} by {
      assert vs[..i + 1] == vs[..i] + [vs[i]];
    }
  }

  // ---------------------------------------------------------------------------
  // Sums of row sizes

  /** A non-empty set has an element (the witness for the choices over sets below). */
  lemma NonEmptyHasElement(s: set<int>)
    requires s != {}
    ensures exists x :: x in s
  {
    if forall y :: y !in s {
      assert false;
    }
  }

  lemma SumSizesRemove<W>(m: Matrix<W>, vs: set<int>, v: int)
    requires v in vs
    ensures SumSizes(m, vs) == |RowOf(m, v)| + SumSizes(m, vs - {v})
    decreases vs
  {
    var u :| u in vs && SumSizes(m, vs) == |RowOf(m, u)| + SumSizes(m, vs - {u});
    if u != v {
      SumSizesRemove(m, vs - {u}, v);
      SumSizesRemove(m, vs - {v}, u);
      assert vs - {u} - {v} == vs - {v} - {u};
    }
  }

  /** Sizes that grow by one exactly on the vertices of s raise the sum by |vs * s|. */
  lemma {:induction false} SumSizesShift<W>(m: Matrix<W>, m': Matrix<W>, vs: set<int>, s: set<int>)
    requires forall v :: v in vs ==> |RowOf(m', v)| == |RowOf(m, v)| + (if v in s then 1 else 0)
    ensures SumSizes(m', vs) == SumSizes(m, vs) + |vs * s|
    decreases vs
  {
    if vs != {} {
      NonEmptyHasElement(vs);
      var v :| v in vs;
      SumSizesRemove(m, vs, v);
      SumSizesRemove(m', vs, v);
      SumSizesShift(m, m', vs - {v}, s);
      if v in s {
        assert vs * s == (vs - {v}) * s + {v};
      } else {
        assert vs * s == (vs - {v}) * s;
      }
    }
  }

  /** Vertices without a row add nothing to the sum. */
  lemma {:induction false} SumSizesOverKeys<W>(m: Matrix<W>, vs: set<int>)
    requires m.Keys <= vs
    ensures SumSizes(m, vs) == Incidences(m)
    decreases vs
  {
    if vs - m.Keys == {} {
      assert vs == m.Keys by {
        forall x | x in vs
          ensures x in m.Keys
        {
          assert x !in vs - m.Keys;
        }
      }
    } else {
      NonEmptyHasElement(vs - m.Keys);
      var v :| v in vs - m.Keys;
      SumSizesRemove(m, vs, v);
      SumSizesOverKeys(m, vs - {v});
    }
  }

  // ---------------------------------------------------------------------------
  // What a `group` call does to the structural queries

  /** The fresh key is held exactly by the listed vertices; older keys keep their holders. */
  lemma GroupedHolders<W>(m: Matrix<W>, vs: seq<int>, w: W, k: int)
    ensures Holders(Grouped(m, vs, w), k) == if k == NextKey(m) then Members(vs) else Holders(m, k)
  {
    var r, key := Grouped(m, vs, w), NextKey(m);
    var s := if k == key then Members(vs) else Holders(m, k);
    forall v
      ensures v in Holders(r, k) <==> v in s
    {
      if v in vs {
        GroupedRow(m, vs, w, v);
      } else if v in m {
        assert r[v] == m[v];
      }
    }
  }

  /** The row of a vertex listed in a group call gains the new key. */
  lemma GroupedRow<W>(m: Matrix<W>, vs: seq<int>, w: W, v: int)
    requires v in vs
    ensures Grouped(m, vs, w)[v] == RowOf(m, v)[NextKey(m) := w]
  {
    assert v in Members(vs);
  }

  lemma HeldKey<W>(m: Matrix<W>, k: int, v: int)
    requires v in Holders(m, k)
    ensures k in AllKeys(m)
  {
  }

  /** After a group call the network is a hypergraph iff it was one or the call listed more than two vertices. */
  lemma GroupedHyperEdge<W>(m: Matrix<W>, vs: seq<int>, w: W)
    ensures HasHyperEdge(Grouped(m, vs, w)) <==> HasHyperEdge(m) || |Members(vs)| > 2
  {
    var r, key := Grouped(m, vs, w), NextKey(m);
    if HasHyperEdge(m) {
      var k :| k in AllKeys(m) && |Holders(m, k)| > 2;
      GroupedHolders(m, vs, w, k);
      assert Holders(m, k) != {};
      NonEmptyHasElement(Holders(m, k));
      var v :| v in Holders(m, k);
      HeldKey(r, k, v);
    }
    if |Members(vs)| > 2 {
      GroupedHolders(m, vs, w, key);
      NonEmptyHasElement(Members(vs));
      var v :| v in Members(vs);
      HeldKey(r, key, v);
    }
    if HasHyperEdge(r) {
      var k :| k in AllKeys(r) && |Holders(r, k)| > 2;
      GroupedHolders(m, vs, w, k);
      if k != key {
        assert Holders(m, k) != {};
        NonEmptyHasElement(Holders(m, k));
        var v :| v in Holders(m, k);
        HeldKey(m, k, v);
      }
    }
  }

  /** A group call adds one incidence per distinct listed vertex. */
  lemma GroupedIncidences<W>(m: Matrix<W>, vs: seq<int>, w: W)
    ensures Incidences(Grouped(m, vs, w)) == Incidences(m) + |Members(vs)|
  {
    var r := Grouped(m, vs, w);
    var s := Members(vs);
    forall v | v in r.Keys
      ensures |RowOf(r, v)| == |RowOf(m, v)| + (if v in s then 1 else 0)
    {
    }
    SumSizesShift(m, r, r.Keys, s);
    assert r.Keys * s == s;
    SumSizesOverKeys(m, r.Keys);
  }

  /** Group calls keep payloads and rows aligned, rows non-empty and weights consistent. */
  lemma GroupPreservesWellFormed<T, W>(vertices: map<int, T>, m: Matrix<W>, vs: seq<int>, w: W, f: int -> T)
    requires WellFormed(vertices, m)
    ensures WellFormed(Instanced(vertices, vs, f), Grouped(m, vs, w))
  {
    var r, key := Grouped(m, vs, w), NextKey(m);
    forall u, v, k | u in r && v in r && k in r[u] && k in r[v]
      ensures r[u][k] == r[v][k]
    {
      if k == key {
        GroupedHolders(m, vs, w, k);
        assert u in Holders(r, k) && v in Holders(r, k);
      } else {
        GroupedOldKey(m, vs, w, u, k);
        GroupedOldKey(m, vs, w, v, k);
      }
    }
  }

  /** A key other than the new one is held, with its weight, as before the group call. */
  lemma GroupedOldKey<W>(m: Matrix<W>, vs: seq<int>, w: W, u: int, k: int)
    requires u in Grouped(m, vs, w) && k in Grouped(m, vs, w)[u] && k != NextKey(m)
    ensures u in m && k in m[u] && Grouped(m, vs, w)[u][k] == m[u][k]
  {
    if u in vs {
      GroupedRow(m, vs, w, u);
    }
  }

  lemma {:induction false} BuildPairs<W>(calls: seq<GroupCall<W>>)
    requires forall i :: 0 <= i < |calls| ==> |Members(calls[i].members)| == 2
    ensures !HasHyperEdge(Build(calls))
    ensures Incidences(Build(calls)) == 2 * |calls|
    ensures NumEdges(Build(calls)) == |calls|
    decreases |calls|
  {
    if calls != [] {
      var prefix, last := calls[..|calls| - 1], calls[|calls| - 1];
      BuildPairs(prefix);
      GroupedHyperEdge(Build(prefix), last.members, last.weight);
      GroupedIncidences(Build(prefix), last.members, last.weight);
    } else {
      assert Build(calls) == map[];
      assert !HasHyperEdge(Build(calls));
    }
  }

  /** A built network is a hypergraph iff some call listed three or more distinct vertices. */
  lemma {:induction false} BuildHyperEdge<W>(calls: seq<GroupCall<W>>)
    ensures HasHyperEdge(Build(calls)) <==> HasWideCall(calls)
    decreases |calls|
  {
    if calls != [] {
      var prefix, last := calls[..|calls| - 1], calls[|calls| - 1];
      BuildHyperEdge(prefix);
      GroupedHyperEdge(Build(prefix), last.members, last.weight);
      WideCallSplit(calls);
    } else {
      assert Build(calls) == map[];
      assert AllKeys(Build(calls)) == {};
    }
  }

  /** Some call listed more than two distinct vertices. */
  ghost predicate HasWideCall<W>(calls: seq<GroupCall<W>>)
  {
    exists i :: 0 <= i < |calls| && |Members(calls[i].members)| > 2
  }

  /** A wide call is among the earlier calls or is the last one. */
  lemma WideCallSplit<W>(calls: seq<GroupCall<W>>)
    requires calls != []
    ensures HasWideCall(calls) <==>
              HasWideCall(calls[..|calls| - 1]) || |Members(calls[|calls| - 1].members)| > 2
  {
    var prefix := calls[..|calls| - 1];
    if HasWideCall(calls) {
      var i :| 0 <= i < |calls| && |Members(calls[i].members)| > 2;
      if i < |prefix| {
        assert prefix[i] == calls[i];
      }
    }
    if HasWideCall(prefix) {
      var i :| 0 <= i < |prefix| && |Members(prefix[i].members)| > 2;
      assert calls[i] == prefix[i];
    }
  }

}
