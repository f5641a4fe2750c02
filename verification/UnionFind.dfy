/** Union-find with path compression over source identifiers.
    Identifiers are strings that are only compared; an `Id` is the rank of one
    in that order. */
module UnionFinds {

  type Id = nat
  type Edge = (Id, Id)

  // ---------------------------------------------------------------- the graph of union calls

  ghost predicate Adjacent(edges: set<Edge>, a: Id, b: Id) {
    (a, b) in edges || (b, a) in edges
  }

  ghost predicate IsWalk(edges: set<Edge>, p: seq<Id>) {
    |p| > 0 && forall i, j :: 0 <= i && j == i + 1 && j < |p| ==> Adjacent(edges, p[i], p[j])
  }

  ghost predicate IsWalkBetween(edges: set<Edge>, p: seq<Id>, a: Id, b: Id) {
    IsWalk(edges, p) && p[0] == a && p[|p| - 1] == b
  }

  /** Some walk along union edges, in either direction, joins `a` to `b`. */
  ghost predicate Connected(edges: set<Edge>, a: Id, b: Id) {
    exists p :: IsWalkBetween(edges, p, a, b)
  }

  lemma ConnectedToItself(edges: set<Edge>, a: Id)
    ensures Connected(edges, a, a)
  {
    assert IsWalkBetween(edges, [a], a, a);
  }

  lemma ConnectedByEdge(edges: set<Edge>, a: Id, b: Id)
    requires Adjacent(edges, a, b)
    ensures Connected(edges, a, b)
  {
    assert IsWalkBetween(edges, [a, b], a, b);
  }

  lemma ConnectedIsTransitive(edges: set<Edge>, a: Id, b: Id, c: Id)
    requires Connected(edges, a, b) && Connected(edges, b, c)
    ensures Connected(edges, a, c)
  {
    var p :| IsWalkBetween(edges, p, a, b);
    var q :| IsWalkBetween(edges, q, b, c);
    assert IsWalkBetween(edges, p + q[1..], a, c);
  }

  lemma WalksReverse(edges: set<Edge>, p: seq<Id>, a: Id, b: Id)
    requires IsWalkBetween(edges, p, a, b)
    ensures Connected(edges, b, a)
  {
    var q := seq(|p|, i requires 0 <= i < |p| => p[|p| - 1 - i]);
    assert IsWalkBetween(edges, q, b, a);
  }

  lemma ConnectedIsSymmetric(edges: set<Edge>, a: Id, b: Id)
    ensures Connected(edges, a, b) <==> Connected(edges, b, a)
  {
    if p :| IsWalkBetween(edges, p, a, b) {
      WalksReverse(edges, p, a, b);
    }
    if p :| IsWalkBetween(edges, p, b, a) {
      WalksReverse(edges, p, b, a);
    }
  }

  lemma ConnectedGrows(edges: set<Edge>, more: set<Edge>, a: Id, b: Id)
    requires Connected(edges, a, b) && edges <= more
    ensures Connected(more, a, b)
  {
    var p :| IsWalkBetween(edges, p, a, b);
    assert IsWalkBetween(more, p, a, b);
  }

  // ---------------------------------------------------------------- the parent forest

  /** The parent of `v` is a known value and does not exceed it. */
  ghost predicate PointsDown(parent: map<Id, Id>, v: Id) {
    v in parent ==> parent[v] in parent && parent[v] <= v
  }

  ghost predicate Forest(parent: map<Id, Id>) {
    forall v :: PointsDown(parent, v)
  }

  /** The value at which following parents from `v` stops. */
  ghost function Root(parent: map<Id, Id>, v: Id): Id {
    if v in parent && parent[v] < v then Root(parent, parent[v]) else v
  }

  ghost predicate SameRoots(before: map<Id, Id>, after: map<Id, Id>) {
    forall v :: Root(after, v) == Root(before, v)
  }

  ghost predicate EdgesShareRoot(parent: map<Id, Id>, edges: set<Edge>) {
    forall a, b :: (a, b) in edges ==> a in parent && b in parent && Root(parent, a) == Root(parent, b)
  }

  ghost predicate ParentsAreConnected(parent: map<Id, Id>, edges: set<Edge>) {
    forall v {:trigger parent[v]} :: v in parent ==> Connected(edges, v, parent[v])
  }

  /** The forest represents exactly the graph of union edges. */
  ghost predicate Represents(parent: map<Id, Id>, edges: set<Edge>) {
    Forest(parent) && EdgesShareRoot(parent, edges) && ParentsAreConnected(parent, edges)
  }

  lemma {:induction false} RootIsFixed(parent: map<Id, Id>, v: Id)
    requires Forest(parent) && v in parent
    ensures Root(parent, v) in parent && parent[Root(parent, v)] == Root(parent, v) <= v
  {
    assert PointsDown(parent, v);
    if parent[v] < v {
      RootIsFixed(parent, parent[v]);
    }
  }

  /** `r` is the least value of the connected component of `v`. */
  ghost predicate IsLeastConnected(values: set<Id>, edges: set<Edge>, v: Id, r: Id) {
    r in values && Connected(edges, v, r) && forall u :: u in values && Connected(edges, v, u) ==> r <= u
  }

  lemma {:induction false} RootIsConnected(parent: map<Id, Id>, edges: set<Edge>, v: Id)
    requires Represents(parent, edges) && v in parent
    ensures Connected(edges, v, Root(parent, v))
  {
    assert PointsDown(parent, v);
    if parent[v] < v {
      RootIsConnected(parent, edges, parent[v]);
      ConnectedIsTransitive(edges, v, parent[v], Root(parent, v));
    }
  }

  lemma {:induction false} WalkKeepsRoot(parent: map<Id, Id>, edges: set<Edge>, p: seq<Id>)
    requires Represents(parent, edges) && IsWalk(edges, p) && p[0] in parent
    ensures p[|p| - 1] in parent && Root(parent, p[|p| - 1]) == Root(parent, p[0])
  {
    if |p| > 1 {
      assert Adjacent(edges, p[0], p[1]);
      WalkKeepsRoot(parent, edges, p[1..]);
    }
  }

  /** Two values share a root exactly when union edges connect them. */
  lemma RootsDecideConnection(parent: map<Id, Id>, edges: set<Edge>, u: Id, v: Id)
    requires Represents(parent, edges) && u in parent && v in parent
    ensures Connected(edges, u, v) <==> Root(parent, u) == Root(parent, v)
  {
    if Connected(edges, u, v) {
      var p :| IsWalkBetween(edges, p, u, v);
      WalkKeepsRoot(parent, edges, p);
    }
    if Root(parent, u) == Root(parent, v) {
      RootIsConnected(parent, edges, u);
      RootIsConnected(parent, edges, v);
      ConnectedIsSymmetric(edges, v, Root(parent, v));
      ConnectedIsTransitive(edges, u, Root(parent, u), v);
    }
  }

  /** The root is the least member of the component: the canonical label. */
  lemma RootIsLeastConnected(parent: map<Id, Id>, edges: set<Edge>, v: Id)
    requires Represents(parent, edges) && v in parent
    ensures IsLeastConnected(parent.Keys, edges, v, Root(parent, v))
  {
    RootIsConnected(parent, edges, v);
    RootIsFixed(parent, v);
    forall u | u in parent && Connected(edges, v, u)
      ensures Root(parent, v) <= u
    {
      RootsDecideConnection(parent, edges, v, u);
      RootIsFixed(parent, u);
    }
  }

  /** Whatever the calls, their order and the compressions done on the way,
      two structures built from the same union edges label every value alike. */
  lemma LabelsIgnoreCallOrder(p0: map<Id, Id>, p1: map<Id, Id>, edges: set<Edge>, v: Id)
    requires Represents(p0, edges) && Represents(p1, edges) && p0.Keys == p1.Keys && v in p0
    ensures Root(p0, v) == Root(p1, v)
  {
    RootIsLeastConnected(p0, edges, v);
    RootIsLeastConnected(p1, edges, v);
  }

  // ---------------------------------------------------------------- the two updates of `parent`

  /** `after` differs from `parent` at `v` at most, where it holds `p`. */
  ghost predicate IsRelinked(parent: map<Id, Id>, after: map<Id, Id>, v: Id, p: Id) {
    after == parent[v := p] && v in parent && p in parent && p <= v
  }

  lemma RelinkedForest(parent: map<Id, Id>, after: map<Id, Id>, v: Id, p: Id)
    requires Forest(parent) && IsRelinked(parent, after, v, p)
    ensures Forest(after) && after.Keys == parent.Keys
  {
    forall w
      ensures PointsDown(after, w)
    {
      assert PointsDown(parent, w);
    }
  }

  lemma {:induction false} CompressionKeepsRoot(parent: map<Id, Id>, after: map<Id, Id>, v: Id, u: Id)
    requires Forest(parent) && IsRelinked(parent, after, v, Root(parent, v))
    ensures Root(after, u) == Root(parent, u)
  {
    if u == v {
      RootIsFixed(parent, v);
    } else if u in parent && parent[u] < u {
      CompressionKeepsRoot(parent, after, v, parent[u]);
    }
  }

  lemma CompressionRepresents(parent: map<Id, Id>, after: map<Id, Id>, edges: set<Edge>, v: Id)
    requires Represents(parent, edges) && IsRelinked(parent, after, v, Root(parent, v))
    ensures Represents(after, edges) && SameRoots(parent, after)
  {
    RelinkedForest(parent, after, v, Root(parent, v));
    forall u
      ensures Root(after, u) == Root(parent, u)
    {
      CompressionKeepsRoot(parent, after, v, u);
    }
    RootIsConnected(parent, edges, v);
  }

  lemma {:induction false} LinkMovesRoot(parent: map<Id, Id>, after: map<Id, Id>, low: Id, high: Id, u: Id)
    requires IsRelinked(parent, after, high, low) && parent[low] == low && parent[high] == high
    ensures Root(after, u) == if Root(parent, u) == high then low else Root(parent, u)
  {
    if u in parent && parent[u] < u {
      LinkMovesRoot(parent, after, low, high, parent[u]);
    }
  }

  /** `low` and `high` are the roots of `left` and `right`, in either order. */
  ghost predicate AreRootsOf(parent: map<Id, Id>, low: Id, high: Id, left: Id, right: Id) {
    && left in parent && right in parent && low <= high
    && (|| (low == Root(parent, left) && high == Root(parent, right))
        || (high == Root(parent, left) && low == Root(parent, right)))
  }

  lemma LinkJoinsRoots(parent: map<Id, Id>, after: map<Id, Id>, edges: set<Edge>, left: Id, right: Id, low: Id, high: Id)
    requires Forest(parent) && EdgesShareRoot(parent, edges)
    requires AreRootsOf(parent, low, high, left, right) && IsRelinked(parent, after, high, low)
    ensures EdgesShareRoot(after, edges + {(left, right)})
  {
    RootIsFixed(parent, left);
    RootIsFixed(parent, right);
    forall a, b | (a, b) in edges + {(left, right)}
      ensures a in parent && b in parent && Root(after, a) == Root(after, b)
    {
      LinkMovesRoot(parent, after, low, high, a);
      LinkMovesRoot(parent, after, low, high, b);
    }
  }

  lemma LinkedRootsAreConnected(parent: map<Id, Id>, edges: set<Edge>, left: Id, right: Id)
    requires Represents(parent, edges) && left in parent && right in parent
    ensures Connected(edges + {(left, right)}, Root(parent, left), Root(parent, right))
  {
    var more := edges + {(left, right)};
    RootIsConnected(parent, edges, left);
    RootIsConnected(parent, edges, right);
    ConnectedGrows(edges, more, left, Root(parent, left));
    ConnectedGrows(edges, more, right, Root(parent, right));
    ConnectedByEdge(more, left, right);
    ConnectedIsTransitive(more, left, right, Root(parent, right));
    ConnectedIsSymmetric(more, left, Root(parent, left));
    ConnectedIsTransitive(more, Root(parent, left), left, Root(parent, right));
  }

  lemma LinkRepresents(parent: map<Id, Id>, after: map<Id, Id>, edges: set<Edge>, left: Id, right: Id, low: Id, high: Id)
    requires Represents(parent, edges)
    requires AreRootsOf(parent, low, high, left, right) && IsRelinked(parent, after, high, low)
    ensures Represents(after, edges + {(left, right)})
  {
    var more := edges + {(left, right)};
    RelinkedForest(parent, after, high, low);
    LinkJoinsRoots(parent, after, edges, left, right, low, high);
    LinkedRootsAreConnected(parent, edges, left, right);
    ConnectedIsSymmetric(more, Root(parent, left), Root(parent, right));
    forall v | v in parent
      ensures Connected(more, v, after[v])
    {
      ConnectedGrows(edges, more, v, parent[v]);
    }
  }

  // ---------------------------------------------------------------- the class

  class UnionFind {
    var parent: map<Id, Id>
    ghost var edges: set<Edge>  // one per call of Union

    ghost predicate Valid()
      reads this
    {
      Represents(parent, edges)
    }

    constructor (values: set<Id>)
      ensures Valid() && parent.Keys == values && edges == {}
    {
      parent := map v | v in values :: v;
      edges := {};
      new;
      forall v | v in parent
        ensures Connected(edges, v, parent[v])
      {
        ConnectedToItself(edges, v);
      }
    }

    method Find(value: Id) returns (root: Id)
      requires Valid() && value in parent
      modifies this`parent
      ensures Valid() && parent.Keys == old(parent.Keys) && SameRoots(old(parent), parent)
      ensures parent[value] == root  // the path from `value` is now compressed
      ensures root == Root(old(parent), value)
      ensures IsLeastConnected(parent.Keys, edges, value, root)
      decreases value
    {
      RootIsLeastConnected(parent, edges, value);
      assert PointsDown(parent, value);
      if parent[value] != value {
        var r := Find(parent[value]);
        ghost var found := parent;
        RootIsFixed(found, value);
        assert r == Root(found, value);
        parent := parent[value := r];
        CompressionRepresents(found, parent, edges, value);
      }
      root := parent[value];
    }

    method Union(left: Id, right: Id)
      requires Valid() && left in parent && right in parent
      modifies this
      ensures Valid() && parent.Keys == old(parent.Keys) && edges == old(edges) + {(left, right)}
    {
      var a := Find(left);
      var b := Find(right);
      var high := if a < b then b else a;
      var low := if a < b then a else b;
      ghost var found := parent;
      RootIsFixed(found, left);
      RootIsFixed(found, right);
      parent := parent[high := low];
      LinkRepresents(found, parent, edges, left, right, low, high);
      edges := edges + {(left, right)};
    }
  }
}
