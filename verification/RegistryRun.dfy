/**
 `reconcile_config_devices` as the program runs it: dictionaries of record indices, a
 union-find forest, and the configuration rewritten in place.
 */
module RegistryRun {
  import opened Ordering
  import opened UnionFind
  import opened DeviceRegistry
  import opened RegistryProofs
  import opened RegistryFixpoint
  import opened RegistryStable

  // ---------------------------------------------------------------- grouping by host and by identity

  predicate Carries(n: Node, byHost: bool, key: string) {
    if byHost then key in n.hosts else key in Identities(n) && key != ""
  }

  ghost predicate Carried(groups: map<string, seq<nat>>, key: string, i: nat) {
    key in groups && i in groups[key]
  }

  /** `groups[key]` holds the indices below `n` that carry the key. */
  ghost predicate GroupsTo(nodes: seq<Node>, byHost: bool, groups: map<string, seq<nat>>, n: nat)
    requires n <= |nodes|
  {
    && (forall key :: key in groups ==> groups[key] != [])
    && (forall key, i: nat :: Carried(groups, key, i) <==> i < n && Carries(nodes[i], byHost, key))
  }

  /** One record's keys, of which the first `k` are done. */
  ghost predicate Extended(before: map<string, seq<nat>>, groups: map<string, seq<nat>>, byHost: bool,
          keys: seq<string>, k: nat, index: nat)
    requires k <= |keys|
  {
    && (forall key :: key in groups ==> groups[key] != [])
    && (forall key, i: nat :: Carried(groups, key, i) <==>
          Carried(before, key, i) || (i == index && key in keys[..k] && (byHost || key != "")))
  }

  lemma ExtendedStep(before: map<string, seq<nat>>, groups: map<string, seq<nat>>, byHost: bool, keys: seq<string>,
          k: nat, index: nat)
    requires k < |keys| && Extended(before, groups, byHost, keys, k, index)
    ensures Extended(before, if byHost || keys[k] != "" then
        groups[keys[k] := (if keys[k] in groups then groups[keys[k]] else []) + [index]] else groups,
                     byHost, keys, k + 1, index)
  {
    assert keys[..k + 1] == keys[..k] + [keys[k]];
    var next := if byHost || keys[k] != "" then
        groups[keys[k] := (if keys[k] in groups then groups[keys[k]] else []) + [index]] else groups;
    forall key, i: nat
      ensures Carried(next, key, i) <==>
          Carried(before, key, i) || (i == index && key in keys[..k + 1] && (byHost || key != ""))
    {
      assert Carried(next, key, i) <==>
          Carried(groups, key, i) || (key == keys[k] && i == index && (byHost || key != ""));
    }
  }

  method GroupRecords(nodes: seq<Node>, byHost: bool) returns (groups: map<string, seq<nat>>)
    ensures GroupsTo(nodes, byHost, groups, |nodes|)
  {
    groups := map[];
    for index := 0 to |nodes|
      invariant GroupsTo(nodes, byHost, groups, index)
    {
      var keys := if byHost then nodes[index].hosts else Identities(nodes[index]);
      ghost var before := groups;
      for k := 0 to |keys|
        invariant Extended(before, groups, byHost, keys, k, index)
      {
        ExtendedStep(before, groups, byHost, keys, k, index);
        if byHost || keys[k] != "" {
          groups := groups[keys[k] := (if keys[k] in groups then groups[keys[k]] else []) + [index]];
        }
      }
      assert keys[..|keys|] == keys;
    }
  }

  // ---------------------------------------------------------------- linking

  /** Only connected records share a cluster. */
  ghost predicate Sound(nodes: seq<Node>, c: seq<nat>) {
    |c| == |nodes| && forall i, j :: 0 <= i < |c| && 0 <= j < |c| && c[i] == c[j] ==> Connected(nodes, i, j)
  }

  lemma JoinSound(nodes: seq<Node>, c: seq<nat>, l: nat, r: nat)
    requires Sound(nodes, c) && l < |c| && r < |c| && Connected(nodes, l, r)
    ensures Sound(nodes, Joined(c, l, r)) && Coarser(c, Joined(c, l, r))
  {
    var d := Joined(c, l, r);
    ConnectedSymmetric(nodes, l, r);
    forall i, j | 0 <= i < |c| && 0 <= j < |c| && d[i] == d[j] ensures Connected(nodes, i, j) {
      if c[i] != c[j] {
        var a, b := if c[i] == c[r] then r else l, if c[i] == c[r] then l else r;
        assert c[i] == c[a] && c[j] == c[b] && Connected(nodes, a, b);
        ConnectedTransitive(nodes, i, a, b);
        ConnectedTransitive(nodes, i, b, j);
      }
    }
  }

  /** One group: every member is united with the first. */
  method UniteGroup(nodes: seq<Node>, forest: Forest, group: seq<nat>)
    requires forest.Valid() && Sound(nodes, forest.root) && group != []
    requires forall k :: 0 <= k < |group| ==> group[k] < |nodes| && Connected(nodes, group[0], group[k])
    modifies forest
    ensures forest.Valid() && Sound(nodes, forest.root) && Coarser(old(forest.root), forest.root)
    ensures forall k :: 0 <= k < |group| ==> forest.root[group[k]] == forest.root[group[0]]
  {
    for k := 1 to |group|
      invariant forest.Valid() && Sound(nodes, forest.root) && Coarser(old(forest.root), forest.root)
      invariant forall m :: 0 <= m < k ==> forest.root[group[m]] == forest.root[group[0]]
    {
      JoinSound(nodes, forest.root, group[0], group[k]);
      forest.Union(group[0], group[k]);
    }
  }

  /** Records that carry the same key are together. */
  ghost predicate KeyTogether(nodes: seq<Node>, c: seq<nat>, byHost: bool, key: string) {
    |c| == |nodes| &&
    forall i, j ::
      0 <= i < |nodes| && 0 <= j < |nodes| && Carries(nodes[i], byHost, key) && Carries(nodes[j], byHost, key) ==>
        c[i] == c[j]
  }

  lemma SharedKeyLinks(nodes: seq<Node>, byHost: bool, key: string, i: nat, j: nat)
    requires i < |nodes| && j < |nodes| && Carries(nodes[i], byHost, key) && Carries(nodes[j], byHost, key)
    ensures Connected(nodes, i, j)
  {
    assert Linked(nodes[i], nodes[j]);
    LinkedConnected(nodes, i, j);
  }

  lemma CoarserKeepsKey(nodes: seq<Node>, c: seq<nat>, d: seq<nat>, byHost: bool, key: string)
    requires KeyTogether(nodes, c, byHost, key) && Coarser(c, d)
    ensures KeyTogether(nodes, d, byHost, key)
  {
  }

  method LinkBy(nodes: seq<Node>, forest: Forest, byHost: bool)
    requires forest.Valid() && Sound(nodes, forest.root)
    modifies forest
    ensures forest.Valid() && Sound(nodes, forest.root) && Coarser(old(forest.root), forest.root)
    ensures forall key :: KeyTogether(nodes, forest.root, byHost, key)
  {
    var groups := GroupRecords(nodes, byHost);
    var left := groups.Keys;
    while left != {}
      invariant left <= groups.Keys
      invariant forest.Valid() && Sound(nodes, forest.root) && Coarser(old(forest.root), forest.root)
      invariant forall key :: key !in left ==> KeyTogether(nodes, forest.root, byHost, key)
      decreases |left|
    {
      var key :| key in left;
      var group := groups[key];
      forall k | 0 <= k < |group| ensures group[k] < |nodes| && Connected(nodes, group[0], group[k]) {
        assert Carried(groups, key, group[0]) && Carried(groups, key, group[k]);
        SharedKeyLinks(nodes, byHost, key, group[0], group[k]);
      }
      ghost var before := forest.root;
      UniteGroup(nodes, forest, group);
      forall other | other !in left - {key} ensures KeyTogether(nodes, forest.root, byHost, other) {
        if other != key { CoarserKeepsKey(nodes, before, forest.root, byHost, other); }
      }
      left := left - {key};
    }
  }

  lemma LinkedByKey(nodes: seq<Node>, c: seq<nat>, i: nat, j: nat)
    requires |c| == |nodes| && i < |nodes| && j < |nodes| && Linked(nodes[i], nodes[j])
    requires forall byHost, key :: KeyTogether(nodes, c, byHost, key)
    ensures c[i] == c[j]
  {
    if h :| h in nodes[i].hosts && h in nodes[j].hosts {
      assert KeyTogether(nodes, c, true, h) && Carries(nodes[i], true, h) && Carries(nodes[j], true, h);
    } else {
      var x :| x in Identities(nodes[i]) && x in Identities(nodes[j]) && x != "";
      assert KeyTogether(nodes, c, false, x) && Carries(nodes[i], false, x) && Carries(nodes[j], false, x);
    }
  }

  /** After the host and id loops two records share a root exactly when a chain of shared hosts,
      ids and aliases connects them. */
  method LinkRecords(nodes: seq<Node>) returns (forest: Forest)
    ensures fresh(forest) && forest.Valid() && |forest.parent| == |nodes|
    ensures SamePartition(forest.root, Closure(nodes))
    ensures forall i, j :: 0 <= i < |nodes| && 0 <= j < |nodes| ==>
      (forest.root[i] == forest.root[j] <==> Connected(nodes, i, j))
  {
    forest := new Forest(|nodes|);
    forall i | 0 <= i < |nodes| ensures Connected(nodes, i, i) { ConnectedReflexive(nodes, i); }
    LinkBy(nodes, forest, true);
    ghost var hosts := forest.root;
    LinkBy(nodes, forest, false);
    ghost var c := forest.root;
    forall byHost, key ensures KeyTogether(nodes, c, byHost, key) {
      if byHost { CoarserKeepsKey(nodes, hosts, c, true, key); }
    }
    forall i, j | 0 <= i < |nodes| && 0 <= j < |nodes|
      ensures c[i] == c[j] <==> Connected(nodes, i, j)
      ensures c[i] == c[j] <==> Closure(nodes)[i] == Closure(nodes)[j]
    {
      ClosureIsConnected(nodes, i, j);
      if Connected(nodes, i, j) {
        var p :| Chain(nodes, p) && p[0] == i && p[|p| - 1] == j;
        forall a, b | 0 <= a < |nodes| && 0 <= b < |nodes| && Linked(nodes[a], nodes[b]) ensures c[a] == c[b] {
          LinkedByKey(nodes, c, a, b);
        }
        ChainInOneClass(nodes, c, p);
      }
    }
  }

  // ---------------------------------------------------------------- the primary pass

  /** `local_slot_count`: every lookup halves paths, none changes a cluster. */
  method CountSlots(nodes: seq<Node>, forest: Forest, r: nat) returns (count: nat)
    requires forest.Valid() && |forest.parent| == |nodes|
    modifies forest
    ensures forest.Valid() && |forest.parent| == |nodes| && forest.root == old(forest.root)
    ensures |forest.root| == |nodes| && count == LocalCount(nodes, forest.root, r, |nodes|)
  {
    count := 0;
    for index := 0 to |nodes|
      invariant forest.Valid() && |forest.parent| == |nodes| && forest.root == old(forest.root)
      invariant count == LocalCount(nodes, forest.root, r, index)
    {
      if nodes[index].slot != NoSlot {
        var found := forest.Find(index);
        if found == r { count := count + 1; }
      }
    }
  }

  method JoinPrimaries(nodes: seq<Node>, forest: Forest)
    requires forest.Valid() && |forest.parent| == |nodes|
    modifies forest
    ensures forest.Valid() && |forest.parent| == |nodes|
    ensures |old(forest.root)| == |nodes| && forest.root == PrimaryPass(nodes, old(forest.root))
  {
    var primaries := Primaries(nodes, |nodes|);
    if primaries == [] { return; }
    ghost var rest := primaries[1..];
    for k := 1 to |primaries|
      invariant forest.Valid() && |forest.parent| == |nodes|
      invariant forest.root == PrimaryFold(nodes, old(forest.root), primaries[0], rest[..k - 1])
    {
      assert rest[..k][..k - 1] == rest[..k - 1] && rest[..k][k - 1] == primaries[k];
      var headRoot := forest.Find(primaries[0]);
      var otherRoot := forest.Find(primaries[k]);
      if headRoot != otherRoot {
        var headCount := CountSlots(nodes, forest, headRoot);
        var otherCount := CountSlots(nodes, forest, otherRoot);
        if headCount + otherCount <= 1 {
          forest.Union(primaries[0], primaries[k]);
        }
      }
    }
    assert rest[..|primaries| - 1] == rest;
  }
}
