/**
 Union-find with path halving, as used to cluster device records.  The ghost field `root` is
 the partition: it names the root of every index.  Finding never changes it; a union joins
 two classes.
 */
module UnionFind {
  /** One index: its parent lies in the same class and nearer the root, the root is its own. */
  ghost predicate NodeOk(parent: seq<nat>, root: seq<nat>, depth: seq<nat>, i: nat)
    requires |root| == |depth| == |parent| && i < |parent|
  {
    && parent[i] < |parent| && root[i] < |parent|
    && root[parent[i]] == root[i] && root[root[i]] == root[i]
    && (parent[i] == i <==> root[i] == i)
    && (parent[i] != i ==> depth[parent[i]] < depth[i])
  }

  /** `root` is the partition the parent links describe; `depth` falls along every link. */
  ghost predicate Rooted(parent: seq<nat>, root: seq<nat>, depth: seq<nat>) {
    && |root| == |depth| == |parent|
    && forall i {:trigger NodeOk(parent, root, depth, i)} :: 0 <= i < |parent| ==> NodeOk(parent, root, depth, i)
  }

  /** Following the parent links to the end, as `find` does without the halving. */
  ghost function Follow(parent: seq<nat>, root: seq<nat>, depth: seq<nat>, i: nat): nat
    requires Rooted(parent, root, depth) && i < |parent|
    decreases if i < |depth| then depth[i] else 0
  {
    assert NodeOk(parent, root, depth, i);
    if parent[i] == i then i else Follow(parent, root, depth, parent[i])
  }

  lemma {:induction false} RootIsFollowed(parent: seq<nat>, root: seq<nat>, depth: seq<nat>, i: nat)
    requires Rooted(parent, root, depth) && i < |parent|
    ensures Follow(parent, root, depth, i) == root[i]
    decreases depth[i]
  {
    assert NodeOk(parent, root, depth, i);
    if parent[i] != i { RootIsFollowed(parent, root, depth, parent[i]); }
  }

  /** The partition with the classes of `l` and `r` joined under the label of `l`. */
  function Joined(c: seq<nat>, l: nat, r: nat): (d: seq<nat>)
    requires l < |c| && r < |c|
    ensures |d| == |c|
    ensures forall i :: 0 <= i < |c| ==> d[i] == if c[i] == c[r] then c[l] else c[i]
  {
    seq(|c|, i requires 0 <= i < |c| => if c[i] == c[r] then c[l] else c[i])
  }

  /** Two labellings of the same partition. */
  ghost predicate SamePartition(c: seq<nat>, d: seq<nat>) {
    |c| == |d| && forall i, j :: 0 <= i < |c| && 0 <= j < |c| ==> (c[i] == c[j] <==> d[i] == d[j])
  }

  lemma HalvingKeepsRoots(parent: seq<nat>, root: seq<nat>, depth: seq<nat>, i: nat)
    requires Rooted(parent, root, depth) && i < |parent| && parent[i] != i
    ensures NodeOk(parent, root, depth, i) && NodeOk(parent, root, depth, parent[i])
    ensures Rooted(parent[i := parent[parent[i]]], root, depth)
    ensures depth[parent[parent[i]]] < depth[i] && root[parent[parent[i]]] == root[i]
  {
    assert NodeOk(parent, root, depth, i);
    assert NodeOk(parent, root, depth, parent[i]);
    var q := parent[i := parent[parent[i]]];
    forall j | 0 <= j < |q| ensures NodeOk(q, root, depth, j) {
      assert NodeOk(parent, root, depth, j);
    }
  }

  function Deepened(root: seq<nat>, depth: seq<nat>, l: nat, r: nat): (d: seq<nat>)
    requires |root| == |depth| && l < |depth|
    ensures |d| == |depth|
    ensures forall i :: 0 <= i < |d| ==> d[i] == if root[i] == r then depth[i] + depth[l] + 1 else depth[i]
  {
    seq(|root|, i requires 0 <= i < |root| => if root[i] == r then depth[i] + depth[l] + 1 else depth[i])
  }

  lemma UnionJoins(parent: seq<nat>, root: seq<nat>, depth: seq<nat>, l: nat, r: nat)
    requires Rooted(parent, root, depth) && l < |parent| && r < |parent|
    requires root[l] == l && root[r] == r && l != r
    ensures Rooted(parent[r := l], Joined(root, l, r), Deepened(root, depth, l, r))
  {
    var q, c, d := parent[r := l], Joined(root, l, r), Deepened(root, depth, l, r);
    assert NodeOk(parent, root, depth, l) && NodeOk(parent, root, depth, r);
    forall j | 0 <= j < |q| ensures NodeOk(q, c, d, j) {
      assert NodeOk(parent, root, depth, j);
    }
  }

  class Forest {
    var parent: seq<nat>
    ghost var root: seq<nat>
    ghost var depth: seq<nat>

    ghost predicate Valid()
      reads this
    {
      Rooted(parent, root, depth)
    }

    constructor (n: nat)
      ensures Valid() && |parent| == n && root == seq(n, i => i)
    {
      parent := seq(n, i => i);
      root := seq(n, i => i);
      depth := seq(n, i => 0);
    }

    /** Halving shortens the path and leaves the partition alone. */
    method Find(index: nat) returns (r: nat)
      requires Valid() && index < |parent|
      modifies this
      ensures Valid() && |parent| == old(|parent|)
      ensures root == old(root) && |root| == |parent| && r == root[index]
      ensures r < |root| && root[r] == r
    {
      r := index;
      while parent[r] != r
        invariant Valid() && |parent| == old(|parent|) && root == old(root)
        invariant r < |parent| && root[r] == root[index]
        decreases if r < |depth| then depth[r] else 0
      {
        HalvingKeepsRoots(parent, root, depth, r);
        parent := parent[r := parent[parent[r]]];
        r := parent[r];
      }
      assert NodeOk(parent, root, depth, r);
    }

    method Union(left: nat, right: nat)
      requires Valid() && left < |parent| && right < |parent|
      modifies this
      ensures Valid() && |parent| == old(|parent|)
      ensures |old(root)| == |parent| && root == Joined(old(root), left, right)
    {
      var rootLeft := Find(left);
      var rootRight := Find(right);
      assert Joined(root, left, right) == Joined(root, rootLeft, rootRight);
      if rootLeft != rootRight {
        UnionJoins(parent, root, depth, rootLeft, rootRight);
        parent := parent[rootRight := rootLeft];
        depth := Deepened(root, depth, rootLeft, rootRight);
        root := Joined(root, rootLeft, rootRight);
      } else {
        assert root == Joined(root, left, right);
      }
    }
  }
}
