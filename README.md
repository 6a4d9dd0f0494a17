# Competition network: incidence store and topology classifier

This project is a Dafny model of the core of bertrandnetwork. In that program a market
of sellers is a competition network, which is a hypergraph:

- each seller is a vertex;
- a *group* (hyperedge) links the sellers that compete directly, and carries a
  competitive-intensity weight.

The model covers two parts.

**The incidence store** (`hypergraph.dfy`, module `HyperGraph`). Class `HyperGraph`
holds the per-vertex payloads and the incidence matrix. The matrix maps a vertex index
to a row, and a row maps edge keys to the weight of that group.

- `Group` adds a group. Its key is one more than the greatest key present, or 0 in an
  empty matrix.
- `IsHyperGraph` reports whether some key is held by more than two rows.
- `NumberEdges` counts incidences and halves the count.
- `AddGroup` and `RemoveGroup` never complete.

Each method is proved against a specification function on the matrix (`Grouped`,
`NextKey`, `HasHyperEdge`, `NumEdges`). Lemmas then relate those functions to one
another and to whole sequences of `group` calls (`Build`).

**The topology classifier** (`competition_network.dfy`, module `CompetitionNetwork`).
`identifyTopologyClass` returns one of four labels: NOT_FOUND = -1, BINARY_TREE = 0,
PATH = 1, STAR = 2. It tries the tests in this fixed order: hypergraph, path, binary
tree, star.

The binary-tree test rejects any row with more than three keys. It then prunes a copy of
the matrix, pass by pass:

1. remove every row that has exactly one key (a leaf);
2. strip every key that only one remaining row still holds.

The answer is yes exactly when the copy ends up empty.

The model has two versions of this test:

- `IsBinaryTree` and `IdentifyTopologyClass` prune a private copy (`Pruned`,
  `TopologyClass`).
- `IsBinaryTreeAsWritten` and `IdentifyTopologyClassAsWritten` follow the source. Its
  copy shares its rows with the network, so the rows the loop strips are the network's
  own rows. These methods write them back (`Residue`, `TopologyClassAsWritten`).

**Scenarios** (`scenarios.dfy`, module `Scenarios`) build concrete networks with `group`
calls and classify them:

- the example program's network;
- a path;
- a triangle, and a triangle with a tail;
- a three-spoke star and a four-spoke star;
- a path whose two ends each also have a one-member group;
- one group of three sellers.

Two behaviours of the code need a note:

- **Shallow copy.** `isBinaryTree` prunes `cloneMatrix`, a copy of the outer map only
  (src/sketch/modelutils/CompetitionNetwork.kt:77). The rows stay shared, so stripping
  keys at :102 changes the network itself. The model follows the code; see Findings.
- **Trees with a single centre.** The comment on `isBinaryTree` (:66-67) says a binary
  tree lets every leaf be removed until the graph is empty, and :107 answers yes exactly
  when the copy is empty. The code does not achieve this for every tree whose degrees
  are at most three. When the last leaves around a single centre are removed, that
  centre's row is stripped to empty. An empty row is never a leaf, so the copy never
  becomes empty:
  - `ZeroRowBlocks` proves this for a copy that already has an empty row;
  - `ZeroRowReached` proves it for an empty row that appears at any pass the loop
    reaches;
  - `StarClass` shows it on the three-spoke star, which is classified STAR, not
    BINARY_TREE.

  The example program's network has two centres and does empty (`MainNetworkPruned`).
  This is proved only for that network, not for every tree with two centres.
- **The loop stops after a pass that removes no leaf.** It stops even if that pass's
  strip has just made new leaves. `LoopedPathPruned` shows this on a path whose two ends
  each also have a one-member group: the loop stops on the bare path 0-1-2-3, which is
  not empty.

The as-written methods (`IsBinaryTreeAsWritten`, `IdentifyTopologyClassAsWritten`) can
leave a network row empty; the three-spoke star's centre row is one example. They
therefore do not preserve the non-empty-row part of the store's invariant `Valid`. What
they do preserve is that rows and payloads keep the same indices, and that every row
keeps only keys it had, with the same weights (`AsWrittenShrinks`,
`BinaryTreeAsWrittenShrinks`).

## Model

| member | source | states |
|---|---|---|
| HyperGraph.HyperGraph.constructor | src/sketch/HyperGraph.kt:21-26 | a new network has no payloads and an empty incidence matrix, and satisfies the store's invariants |
| HyperGraph.NextKey | src/sketch/HyperGraph.kt:48-50 | the next edge key is 0 when no row holds a key; otherwise it is one more than a key that is present, and it exceeds every key in every row |
| HyperGraph.HyperGraph.NextEdgeKey | src/sketch/HyperGraph.kt:48-50 | the scan over all rows' keys returns the next edge key |
| HyperGraph.Grouped | src/sketch/HyperGraph.kt:46-60 | after a group call, the rows are the old rows plus one per listed vertex; each listed vertex's row gains the new key with the group's weight and keeps its old entries, so it grows by exactly one; rows of unlisted vertices are unchanged |
| HyperGraph.Instanced | src/sketch/HyperGraph.kt:52-58 | after a group call, payloads exist for old and listed indices; each listed index's payload is replaced by the factory's value; other payloads are unchanged |
| HyperGraph.HyperGraph.Group | src/sketch/HyperGraph.kt:46-60 | group updates the matrix and the payloads exactly as the two functions above describe, and preserves the store's invariants |
| HyperGraph.HyperGraph.AddGroup | src/sketch/HyperGraph.kt:62-65 | adding a vertex to an existing group never completes |
| HyperGraph.HyperGraph.RemoveGroup | src/sketch/HyperGraph.kt:67-70 | removing a vertex from a group never completes |
| HyperGraph.CountHolders | src/sketch/HyperGraph.kt:128-133 | the inner count of isHyperGraph equals the number of rows that hold the key |
| HyperGraph.HyperGraph.IsHyperGraph | src/sketch/HyperGraph.kt:115-140 | the answer is true exactly when some edge key is held by more than two rows |
| HyperGraph.HyperGraph.NumberEdges | src/sketch/HyperGraph.kt:143-159 | the answer is the total number of incidences over all rows, halved by integer division |
| HyperGraph.MaxOf | src/sketch/HyperGraph.kt:49 | the maximum of a non-empty key set belongs to it and bounds every element |
| HyperGraph.GroupedHolders | src/sketch/HyperGraph.kt:52-58 | after a group call, the new key is held by exactly the listed vertices; every other key keeps its holders |
| HyperGraph.GroupedRow | src/sketch/HyperGraph.kt:53-56 | a listed vertex's row after the call is its old row (or an empty one) with the new key set to the weight |
| HyperGraph.GroupedOldKey | src/sketch/HyperGraph.kt:52-58 | any entry other than the new key, after a group call, was already in the old matrix with the same weight |
| HyperGraph.GroupedHyperEdge | src/sketch/HyperGraph.kt:46-60 | a group call makes the network a hypergraph exactly when it already was one, or when the call lists more than two distinct vertices |
| HyperGraph.GroupedIncidences | src/sketch/HyperGraph.kt:52-58 | a group call adds exactly as many incidences as it lists distinct vertices |
| HyperGraph.GroupPreservesWellFormed | src/sketch/HyperGraph.kt:46-60 | group keeps payloads and rows over the same indices, keeps every row non-empty, and gives each key one weight in every row that holds it |
| HyperGraph.SumSizesRemove | src/sketch/HyperGraph.kt:150-156 | the incidence count over a set of rows is one row's size plus the count over the rest |
| HyperGraph.SumSizesShift | src/sketch/HyperGraph.kt:150-156 | if rows in s grow by one and others keep their size, the incidence count grows by the number of rows in s |
| HyperGraph.SumSizesOverKeys | src/sketch/HyperGraph.kt:150-156 | counting over any superset of the row indices gives the total incidence count |
| HyperGraph.BuildPairs | src/sketch/HyperGraph.kt:146-159 | a network built only from two-vertex groups is not a hypergraph; it has twice as many incidences as calls, and numberEdges returns the number of calls |
| HyperGraph.BuildHyperEdge | src/sketch/HyperGraph.kt:120-140 | a network built by group calls is a hypergraph exactly when some call listed more than two distinct vertices |
| CompetitionNetwork.Stripped | src/sketch/modelutils/CompetitionNetwork.kt:95-104 | the strip step keeps every row index and only removes keys from rows; afterwards every key left is held by at least two rows |
| CompetitionNetwork.Pass | src/sketch/modelutils/CompetitionNetwork.kt:85-104 | one pruning pass removes exactly the leaves, so the row count drops by their number; the remaining rows only lose keys, and every key left has at least two holders |
| CompetitionNetwork.Pruned | src/sketch/modelutils/CompetitionNetwork.kt:79-105 | pruning, repeated until a pass removes no leaf, keeps a subset of the row indices, and every key left has at least two holders |
| CompetitionNetwork.IsStar | src/sketch/modelutils/CompetitionNetwork.kt:135-145 | isStar holds exactly when there are at most two rows or exactly one row whose size is not one |
| CompetitionNetwork.TopologyClass | src/sketch/modelutils/CompetitionNetwork.kt:17-58 | classification returns one of the four labels -1, 0, 1, 2 |
| CompetitionNetwork.CollectLeaves | src/sketch/modelutils/CompetitionNetwork.kt:83-90 | the removal queue is exactly the set of rows with one key, and the changed flag is set exactly when that set is non-empty |
| CompetitionNetwork.StripSingles | src/sketch/modelutils/CompetitionNetwork.kt:95-104 | the loop over the remaining groups strips exactly the keys with a single holder from every row |
| CompetitionNetwork.IsBinaryTree | src/sketch/modelutils/CompetitionNetwork.kt:70-108 | on a private copy: the answer is true exactly when no row has more than three keys and pruning empties the copy |
| CompetitionNetwork.IsBinaryTreeAsWritten | src/sketch/modelutils/CompetitionNetwork.kt:70-108 | with the copy sharing its rows: the answer is the one above, and afterwards the network's rows are as the stripping left them |
| CompetitionNetwork.IsPathClass | src/sketch/modelutils/CompetitionNetwork.kt:119-130 | the answer is true exactly when rows outnumber numberEdges by one and exactly two rows have a size other than two |
| CompetitionNetwork.IdentifyTopologyClass | src/sketch/modelutils/CompetitionNetwork.kt:39-58 | with a private pruning copy: the label is hypergraph, then path, then binary tree, then star, in that order; the network is unchanged |
| CompetitionNetwork.IdentifyTopologyClassAsWritten | src/sketch/modelutils/CompetitionNetwork.kt:39-58 | as written: the same decision, except that the star test reads the rows the binary-tree test stripped; afterwards the network holds those stripped rows |
| CompetitionNetwork.StrippedHolders | src/sketch/modelutils/CompetitionNetwork.kt:97-104 | after removing the single-holder keys, such a key has no holders left; every other key keeps all its holders |
| CompetitionNetwork.ZeroRowBlocks | src/sketch/modelutils/CompetitionNetwork.kt:82-107 | an empty row is never removed by pruning, so the binary-tree test fails for any copy that has one |
| CompetitionNetwork.ZeroRowReached | src/sketch/modelutils/CompetitionNetwork.kt:82-107 | an empty row that appears at any pass the loop reaches stays in the copy until the loop stops, so the binary-tree test fails |
| CompetitionNetwork.PrunedFromVisited | src/sketch/modelutils/CompetitionNetwork.kt:82-105 | from every copy the loop passes through, pruning ends at the same copy as from the start |
| CompetitionNetwork.RowPartition | src/sketch/modelutils/CompetitionNetwork.kt:127 | partitioning rows by size splits them into two parts whose sizes add up to the row count |
| CompetitionNetwork.StarIff | src/sketch/modelutils/CompetitionNetwork.kt:135-145 | isStar holds exactly when there are at most two rows, or one hub row whose size is not one while every other row has size one |
| CompetitionNetwork.PathIff | src/sketch/modelutils/CompetitionNetwork.kt:119-130 | isPathClass holds exactly when rows outnumber edges by one and there are two distinct end rows, the only rows whose size is not two |
| CompetitionNetwork.Residue | src/sketch/modelutils/CompetitionNetwork.kt:77-104 | through the shared rows, the pruning loop keeps every row index of the network, and leaves the rows it never visits as they were |
| CompetitionNetwork.TopologyClassAsWritten | src/sketch/modelutils/CompetitionNetwork.kt:39-58 | as written, classification answers PATH exactly when the private-copy version does, and BINARY_TREE exactly when it does; only the STAR and NOT_FOUND answers can differ |
| CompetitionNetwork.OverlayShrinks | src/sketch/modelutils/CompetitionNetwork.kt:77 | writing a pruned copy's rows back over the network keeps its row indices and only removes keys from rows |
| CompetitionNetwork.ResidueShrinks | src/sketch/modelutils/CompetitionNetwork.kt:77-105 | through the shared rows, the whole pruning loop keeps the network's row indices and only removes keys from its rows |
| CompetitionNetwork.BinaryTreeAsWrittenShrinks | src/sketch/modelutils/CompetitionNetwork.kt:70-108 | the binary-tree test as written never adds or removes a network row, and only removes keys from rows |
| CompetitionNetwork.AsWrittenShrinks | src/sketch/modelutils/CompetitionNetwork.kt:39-58 | classification as written never adds or removes a network row, and only removes keys from rows |
| CompetitionNetwork.AsWrittenAfter | src/sketch/modelutils/CompetitionNetwork.kt:39-58 | classification as written either leaves the matrix alone or leaves exactly what the binary-tree test left |
| CompetitionNetwork.BuiltHyperEdgeNotFound | src/sketch/modelutils/CompetitionNetwork.kt:43-44 | a network built with a group of more than two distinct sellers is classified NOT_FOUND |
| CompetitionNetwork.SinglePairIsPath | src/sketch/modelutils/CompetitionNetwork.kt:39-58 | a single group of two sellers passes the star test too, and is classified PATH because the path test runs first |
| CompetitionNetwork.EmptyIsBinaryTree | src/sketch/modelutils/CompetitionNetwork.kt:107 | the empty network is classified BINARY_TREE |
| CompetitionNetwork.StablePruned | src/sketch/modelutils/CompetitionNetwork.kt:82-105 | a copy that has no leaf and no key with a single holder is left unchanged by pruning |
| Scenarios.MainExample | src/Main.kt:10-18 | the example program's five group calls, then classification as written, label the network BINARY_TREE and leave it with rows 1 and 2 stripped |
| Scenarios.MainNetworkClass | src/Main.kt:11-18 | the example program's network is classified BINARY_TREE |
| Scenarios.MainNetworkPruned | src/sketch/modelutils/CompetitionNetwork.kt:82-107 | pruning the example network (a tree with two centres) empties it |
| Scenarios.MainNetworkResidue | src/sketch/modelutils/CompetitionNetwork.kt:77-104 | through the shared rows, pruning the example network strips the groups {0,1} and {1,4} from row 1, and the groups {2,3} and {2,5} from row 2 |
| Scenarios.MainNetworkClassAsWritten | src/sketch/modelutils/CompetitionNetwork.kt:39-58 | as written, the example network is still labelled BINARY_TREE, but is left with the stripped rows |
| Scenarios.MainNetworkChanged | src/sketch/modelutils/CompetitionNetwork.kt:102 | the stripped rows differ from the network's original rows |
| Scenarios.PathClass | src/sketch/modelutils/CompetitionNetwork.kt:119-130 | the groups {0,1}, {1,2}, {2,3}, {3,4} are classified PATH |
| Scenarios.TrianglePruned | src/sketch/modelutils/CompetitionNetwork.kt:82-105 | the triangle has no leaf, so pruning leaves it as it is |
| Scenarios.TriangleClass | src/sketch/modelutils/CompetitionNetwork.kt:39-58 | the triangle is classified NOT_FOUND |
| Scenarios.TriangleTailPruned | src/sketch/modelutils/CompetitionNetwork.kt:82-105 | pruning a triangle with a two-edge tail stops at the triangle |
| Scenarios.TriangleTailResidue | src/sketch/modelutils/CompetitionNetwork.kt:77-104 | through the shared rows, that pruning strips the tail's keys from rows 0 and 3 of the network |
| Scenarios.TriangleTailStrippedIsPath | src/sketch/modelutils/CompetitionNetwork.kt:119-130 | the network left behind passes the path test |
| Scenarios.TriangleTailClass | src/sketch/modelutils/CompetitionNetwork.kt:39-58 | the triangle with a tail is classified NOT_FOUND |
| Scenarios.TriangleTailClassAsWritten | src/sketch/modelutils/CompetitionNetwork.kt:39-58 | as written, the first classification answers NOT_FOUND and leaves the stripped rows; a second classification of the same network answers PATH |
| Scenarios.BuildTriangleTail | src/sketch/HyperGraph.kt:46-60 | five group calls on a new network produce the triangle-with-tail matrix |
| Scenarios.ClassifyTwiceAsWritten | src/sketch/modelutils/CompetitionNetwork.kt:39-58 | classifying that network twice, as written, gives NOT_FOUND and then PATH |
| Scenarios.ClassifyTwice | src/sketch/modelutils/CompetitionNetwork.kt:39-58 | classifying it twice with a private copy gives NOT_FOUND both times |
| Scenarios.StarPruned | src/sketch/modelutils/CompetitionNetwork.kt:82-107 | the three-spoke star fails the binary-tree test: its centre's row is stripped to empty and never removed |
| Scenarios.StarClass | src/sketch/modelutils/CompetitionNetwork.kt:39-58 | the three-spoke star is not a binary tree, and is classified STAR |
| Scenarios.WideStarCentre | src/sketch/modelutils/CompetitionNetwork.kt:74-75 | the four-spoke star's centre has more than three keys |
| Scenarios.WideStarClass | src/sketch/modelutils/CompetitionNetwork.kt:135-145 | the groups {0,1}, {0,2}, {0,3}, {0,4} are classified STAR |
| Scenarios.LoopedPathEdges | src/sketch/HyperGraph.kt:46-60 | three two-member groups and two one-member groups give no hyperedge and eight incidences |
| Scenarios.LoopedPathPass | src/sketch/modelutils/CompetitionNetwork.kt:82-104 | the first pass on that network removes no leaf, but strips the two one-member groups, which leaves the path 0-1-2-3 |
| Scenarios.LoopedPathPruned | src/sketch/modelutils/CompetitionNetwork.kt:79-107 | the loop stops after that pass although vertices 0 and 3 are now leaves, so the copy is not emptied |
| Scenarios.LoopedPathClass | src/sketch/modelutils/CompetitionNetwork.kt:39-58 | that network is classified NOT_FOUND |
| Scenarios.ThreeSellers | src/sketch/HyperGraph.kt:120-140 | one group of three sellers makes the network a hypergraph |
| Scenarios.HyperGraphExample | src/sketch/modelutils/CompetitionNetwork.kt:43-44 | a network with one group of three sellers is reported as a hypergraph and classified NOT_FOUND |

## Left out

- `toString` (src/sketch/HyperGraph.kt:78-113) builds a printable table. It is formatting only and is not modelled. The printing in src/Main.kt is left out for the same reason.
- The `vararg` overload of `group` (src/sketch/HyperGraph.kt:35-37) only forwards to the list form, which is modelled.
- Vertex payloads are the type parameter `T` of the class. The `Vertex` and `Seller` classes and their fields are not modelled. `Sketch.kt` is not part of this model.
- Weights are `Double` in the source. Here they are the opaque type `W`, because the core only stores them and tests for their presence. The scenarios use `int` weights.
- The `checkHyperGraph` parameter of `isBinaryTree`, `isPathClass` and `isStar` is not modelled. Every call passes its default, `false`.
- HyperGraph.HyperGraph.NextEdgeKey: does not model the 32-bit `Int` overflow of the next key once a key equal to `Int.MAX_VALUE` exists, because keys here are unbounded integers.
- HyperGraph.HyperGraph.NumberEdges: does not model 32-bit overflow of the incidence count, for the same reason.
- HyperGraph.HyperGraph.AddGroup: the source throws `NotImplementedError`. Here the method returns the `NotImplemented` outcome instead of raising an exception.
- HyperGraph.HyperGraph.RemoveGroup: the same, for the same reason.
- CompetitionNetwork.StripSingles: the source loops over the list of keys of all rows, with repeats. The model loops over the set of distinct keys. The result is the same: a repeated key is held by two rows and is never stripped, and stripping one key does not change another key's holders.
- The iteration order of the source's hash maps is not modelled. Every loop here computes a result that does not depend on order.
- `CompetitionNetwork` is a subclass of `HyperGraph` in the source. Here the classifier's methods take the network object as a parameter.
- The source reads the captive markets of src/Main.kt:4-6 from a list by index. `Scenarios.CaptiveMarket` gives the same values for the indices used, and has no out-of-range failure.

## Findings

| source | as written | input that shows it | evidently intended | confidence | as-written member | corrected member |
|---|---|---|---|---|---|---|
| src/sketch/modelutils/CompetitionNetwork.kt:77,102 | `toMutableMap()` copies only the outer map, so the pruning loop strips keys from the network's own rows | groups {0,1}, {1,2}, {2,0}, {0,3}, {3,4}: the first classification answers NOT_FOUND and strips rows 0 and 3; a second classification of the unmodified network answers PATH | pruning works on a deep copy, the network is unchanged, and classifying twice gives the same label | not executed | CompetitionNetwork.IdentifyTopologyClassAsWritten, Scenarios.ClassifyTwiceAsWritten | CompetitionNetwork.IdentifyTopologyClass, Scenarios.ClassifyTwice |
