/**
 Properties of the clustering: it is the closure of shared hosts and ids, and the primary pass
 never puts two of this PC's readers together.
 */
module RegistryProofs {
  import opened Ordering
  import opened UnionFind
  import opened DeviceRegistry

  // ---------------------------------------------------------------- chains are an equivalence

  lemma ConnectedReflexive(nodes: seq<Node>, i: nat)
    requires i < |nodes|
    ensures Connected(nodes, i, i)
  {
    assert Chain(nodes, [i]) && [i][0] == i && [i][|[i]| - 1] == i;
  }

  lemma ConnectedTransitive(nodes: seq<Node>, i: nat, j: nat, k: nat)
    requires Connected(nodes, i, j) && Connected(nodes, j, k)
    ensures Connected(nodes, i, k)
  {
    var p :| Chain(nodes, p) && p[0] == i && p[|p| - 1] == j;
    var q :| Chain(nodes, q) && q[0] == j && q[|q| - 1] == k;
    var r := p + q[1..];
    assert Chain(nodes, r) by {
      forall m | 0 < m < |r| ensures Linked(nodes[r[m - 1]], nodes[r[m]]) {
        if m >= |p| { assert r[m] == q[m - |p| + 1] && r[m - 1] == q[m - |p|]; }
      }
    }
    assert r[0] == i && r[|r| - 1] == k;
  }

  lemma LinkedSymmetric(a: Node, b: Node)
    requires Linked(a, b)
    ensures Linked(b, a)
  {
    if h :| h in a.hosts && h in b.hosts {
      assert h in b.hosts && h in a.hosts;
    } else {
      var x :| x in Identities(a) && x in Identities(b) && x != "";
      assert x in Identities(b) && x in Identities(a);
    }
  }

  lemma ConnectedSymmetric(nodes: seq<Node>, i: nat, j: nat)
    requires Connected(nodes, i, j)
    ensures Connected(nodes, j, i)
  {
    var p :| Chain(nodes, p) && p[0] == i && p[|p| - 1] == j;
    var r := seq(|p|, m requires 0 <= m < |p| => p[|p| - 1 - m]);
    assert Chain(nodes, r) by {
      forall m | 0 < m < |r| ensures Linked(nodes[r[m - 1]], nodes[r[m]]) {
        LinkedSymmetric(nodes[p[|p| - 1 - m]], nodes[p[|p| - m]]);
      }
    }
    assert r[0] == j && r[|r| - 1] == i;
  }

  lemma LinkedConnected(nodes: seq<Node>, i: nat, j: nat)
    requires i < |nodes| && j < |nodes| && Linked(nodes[i], nodes[j])
    ensures Connected(nodes, i, j)
  {
    assert Chain(nodes, [i, j]) && [i, j][0] == i && [i, j][|[i, j]| - 1] == j;
  }

  lemma {:induction false} LeastFromConnected(nodes: seq<Node>, i: nat, j: nat)
    requires j <= i < |nodes|
    ensures Connected(nodes, i, LeastFrom(nodes, i, j))
    ensures forall m :: j <= m < LeastFrom(nodes, i, j) ==> !Connected(nodes, i, m)
    decreases i - j
  {
    if j == i {
      ConnectedReflexive(nodes, i);
    } else if !Connected(nodes, i, j) {
      LeastFromConnected(nodes, i, j + 1);
    }
  }

  /** `Closure` labels two records alike exactly when a chain joins them. */
  lemma ClosureIsConnected(nodes: seq<Node>, i: nat, j: nat)
    requires i < |nodes| && j < |nodes|
    ensures Closure(nodes)[i] == Closure(nodes)[j] <==> Connected(nodes, i, j)
  {
    var a, b := LeastFrom(nodes, i, 0), LeastFrom(nodes, j, 0);
    LeastFromConnected(nodes, i, 0);
    LeastFromConnected(nodes, j, 0);
    if a == b {
      ConnectedSymmetric(nodes, j, b);
      ConnectedTransitive(nodes, i, a, j);
    }
    if Connected(nodes, i, j) {
      ConnectedTransitive(nodes, i, j, b);
      ConnectedSymmetric(nodes, i, j);
      ConnectedTransitive(nodes, j, i, a);
    }
  }

  /** A partition that relates linked records relates every chain. */
  lemma {:induction false} ChainInOneClass(nodes: seq<Node>, c: seq<nat>, p: seq<nat>)
    requires |c| == |nodes| && Chain(nodes, p)
    requires forall i, j :: 0 <= i < |nodes| && 0 <= j < |nodes| && Linked(nodes[i], nodes[j]) ==> c[i] == c[j]
    ensures c[p[0]] == c[p[|p| - 1]]
  {
    if |p| > 1 {
      var q := p[..|p| - 1];
      assert Chain(nodes, q);
      ChainInOneClass(nodes, c, q);
      assert Linked(nodes[p[|p| - 2]], nodes[p[|p| - 1]]);
    }
  }

  // ---------------------------------------------------------------- the primary pass

  lemma {:induction false} CountPositive(nodes: seq<Node>, c: seq<nat>, r: nat, n: nat, a: nat)
    requires |c| == |nodes| && a < n <= |nodes| && IsLocal(nodes[a]) && c[a] == r
    ensures LocalCount(nodes, c, r, n) >= 1
  {
    if a < n - 1 { CountPositive(nodes, c, r, n - 1, a); }
  }

  lemma {:induction false} CountJoined(nodes: seq<Node>, c: seq<nat>, h: nat, i: nat, n: nat, r: nat)
    requires |c| == |nodes| && h < |nodes| && i < |nodes| && c[h] != c[i] && n <= |nodes|
    ensures LocalCount(nodes, Joined(c, h, i), c[h], n) ==
            LocalCount(nodes, c, c[h], n) + LocalCount(nodes, c, c[i], n)
    ensures r != c[h] && r != c[i] ==> LocalCount(nodes, Joined(c, h, i), r, n) == LocalCount(nodes, c, r, n)
  {
    if n > 0 { CountJoined(nodes, c, h, i, n - 1, r); }
  }

  /** `d` joins classes of `c` and separates none. */
  ghost predicate Coarser(c: seq<nat>, d: seq<nat>) {
    |c| == |d| && forall i, j :: 0 <= i < |c| && 0 <= j < |c| && c[i] == c[j] ==> d[i] == d[j]
  }

  /** No two of this PC's slots that `c` keeps apart are together in `d`. */
  ghost predicate SlotsApart(nodes: seq<Node>, c: seq<nat>, d: seq<nat>)
    requires |c| == |d| == |nodes|
  {
    forall a, b :: 0 <= a < |nodes| && 0 <= b < |nodes| && IsLocal(nodes[a]) && IsLocal(nodes[b]) && d[a] == d[b] ==>
        c[a] == c[b]
  }

  lemma PrimaryStepSafe(nodes: seq<Node>, c: seq<nat>, h: nat, i: nat)
    requires |c| == |nodes| && h < |nodes| && i < |nodes|
    ensures var d := PrimaryStep(nodes, c, h, i);
      Coarser(c, d) && SlotsApart(nodes, c, d)
  {
    var d := PrimaryStep(nodes, c, h, i);
    forall a, b | 0 <= a < |nodes| && 0 <= b < |nodes| && IsLocal(nodes[a]) && IsLocal(nodes[b]) && d[a] == d[b]
      ensures c[a] == c[b]
    {
      if c[a] != c[b] {
        CountPositive(nodes, c, c[a], |nodes|, a);
        CountPositive(nodes, c, c[b], |nodes|, b);
      }
    }
  }

  lemma {:induction false} PrimaryFoldSafe(nodes: seq<Node>, c: seq<nat>, h: nat, ps: seq<nat>)
    requires |c| == |nodes| && h < |nodes| && forall k :: 0 <= k < |ps| ==> ps[k] < |nodes|
    ensures Coarser(c, PrimaryFold(nodes, c, h, ps)) && SlotsApart(nodes, c, PrimaryFold(nodes, c, h, ps))
  {
    if ps != [] {
      PrimaryFoldSafe(nodes, c, h, ps[..|ps| - 1]);
      PrimaryStepSafe(nodes, PrimaryFold(nodes, c, h, ps[..|ps| - 1]), h, ps[|ps| - 1]);
    }
  }

  /** Identity safety of the primary pass, for any records and any starting partition: it only joins
      clusters, and never two of this PC's slots that were apart. */
  lemma PrimaryPassSafe(nodes: seq<Node>, c: seq<nat>)
    requires |c| == |nodes|
    ensures Coarser(c, PrimaryPass(nodes, c)) && SlotsApart(nodes, c, PrimaryPass(nodes, c))
  {
    var ps := Primaries(nodes, |nodes|);
    if ps != [] { PrimaryFoldSafe(nodes, c, ps[0], ps[1..]); }
  }

  lemma {:induction false} CountTwo(nodes: seq<Node>, c: seq<nat>, r: nat, n: nat)
    requires |c| == |nodes| && n <= |nodes|
    ensures LocalCount(nodes, c, r, n) > 1 <==>
            exists a, b :: 0 <= a < b < n && IsLocal(nodes[a]) && IsLocal(nodes[b]) && c[a] == c[b] == r
    ensures LocalCount(nodes, c, r, n) > 0 <==> exists a :: 0 <= a < n && IsLocal(nodes[a]) && c[a] == r
  {
    if n > 0 { CountTwo(nodes, c, r, n - 1); }
  }

  /** Two of this PC's slots would be together if the two clusters were one. */
  ghost predicate TwoSlots(nodes: seq<Node>, c: seq<nat>, h: nat, i: nat)
    requires |c| == |nodes| && h < |nodes| && i < |nodes|
  {
    exists a, b :: 0 <= a < b < |nodes| && IsLocal(nodes[a]) && IsLocal(nodes[b]) &&
                   (c[a] == c[h] || c[a] == c[i]) && (c[b] == c[h] || c[b] == c[i])
  }

  /** Merging is refused exactly when it would put two of this PC's slots together. */
  lemma BlockedIff(nodes: seq<Node>, c: seq<nat>, h: nat, i: nat)
    requires |c| == |nodes| && h < |nodes| && i < |nodes| && c[h] != c[i]
    ensures Blocked(nodes, c, h, i) <==> TwoSlots(nodes, c, h, i)
  {
    CountTwo(nodes, c, c[h], |nodes|);
    CountTwo(nodes, c, c[i], |nodes|);
    if LocalCount(nodes, c, c[h], |nodes|) > 0 && LocalCount(nodes, c, c[i], |nodes|) > 0 {
      var a :| 0 <= a < |nodes| && IsLocal(nodes[a]) && c[a] == c[h];
      var b :| 0 <= b < |nodes| && IsLocal(nodes[b]) && c[b] == c[i];
      assert a != b;
      if a < b { assert TwoSlots(nodes, c, h, i); } else { assert TwoSlots(nodes, c, h, i); }
    }
  }

  /** After the pass every primary record is either with the first one or blocked from it. */
  ghost predicate Settled(nodes: seq<Node>, c: seq<nat>, h: nat, p: nat)
    requires |c| == |nodes| && h < |nodes| && p < |nodes|
  {
    c[p] == c[h] || Blocked(nodes, c, h, p)
  }

  /** The same in terms of the records: together, or kept apart because two of this PC's slots would meet. */
  ghost predicate Grouped(nodes: seq<Node>, c: seq<nat>, h: nat, p: nat)
    requires |c| == |nodes| && h < |nodes| && p < |nodes|
  {
    c[p] == c[h] || TwoSlots(nodes, c, h, p)
  }

  lemma SettledStep(nodes: seq<Node>, c: seq<nat>, h: nat, i: nat, p: nat)
    requires |c| == |nodes| && h < |nodes| && i < |nodes| && p < |nodes|
    requires Settled(nodes, c, h, p) || p == i
    ensures Settled(nodes, PrimaryStep(nodes, c, h, i), h, p)
  {
    if c[h] != c[i] && !Blocked(nodes, c, h, i) {
      CountJoined(nodes, c, h, i, |nodes|, c[p]);
    }
  }

  lemma {:induction false} PrimaryFoldSettles(nodes: seq<Node>, c: seq<nat>, h: nat, ps: seq<nat>)
    requires |c| == |nodes| && h < |nodes| && forall k :: 0 <= k < |ps| ==> ps[k] < |nodes|
    ensures forall k :: 0 <= k < |ps| ==> Settled(nodes, PrimaryFold(nodes, c, h, ps), h, ps[k])
  {
    if ps != [] {
      var init := ps[..|ps| - 1];
      PrimaryFoldSettles(nodes, c, h, init);
      forall k | 0 <= k < |ps| ensures Settled(nodes, PrimaryFold(nodes, c, h, ps), h, ps[k]) {
        if k < |init| { assert Settled(nodes, PrimaryFold(nodes, c, h, init), h, init[k]); }
        SettledStep(nodes, PrimaryFold(nodes, c, h, init), h, ps[|ps| - 1], ps[k]);
      }
    }
  }

  lemma PrimaryPassSettles(nodes: seq<Node>, c: seq<nat>)
    requires |c| == |nodes|
    ensures var ps := Primaries(nodes, |nodes|);
      forall p :: 0 <= p < |nodes| && nodes[p].primary ==>
        Settled(nodes, PrimaryPass(nodes, c), ps[0], p) && Grouped(nodes, PrimaryPass(nodes, c), ps[0], p)
  {
    var ps := Primaries(nodes, |nodes|);
    if ps != [] {
      PrimaryFoldSettles(nodes, c, ps[0], ps[1..]);
      forall p | 0 <= p < |nodes| && nodes[p].primary
        ensures Settled(nodes, PrimaryPass(nodes, c), ps[0], p) && Grouped(nodes, PrimaryPass(nodes, c), ps[0], p)
      {
        assert p in ps;
        var k :| 0 <= k < |ps| && ps[k] == p;
        if k > 0 { assert ps[1..][k - 1] == p; }
        var d := PrimaryPass(nodes, c);
        if d[ps[0]] != d[p] { BlockedIff(nodes, d, ps[0], p); }
      }
    }
  }

  /** A settled partition is left as it is. */
  lemma {:induction false} SettledFixpoint(nodes: seq<Node>, c: seq<nat>, h: nat, ps: seq<nat>)
    requires |c| == |nodes| && h < |nodes| && forall k :: 0 <= k < |ps| ==>
        ps[k] < |nodes| && Settled(nodes, c, h, ps[k])
    ensures PrimaryFold(nodes, c, h, ps) == c
  {
    if ps != [] { SettledFixpoint(nodes, c, h, ps[..|ps| - 1]); }
  }
}
