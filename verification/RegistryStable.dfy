/**
 The fixpoint theorem: on the configuration and the device list it has just written,
 reconciling returns the same list and the same configuration.
 */
module RegistryStable {
  import opened Wrappers
  import opened Ordering
  import opened UnionFind
  import opened DeviceRegistry
  import opened RegistryProofs
  import opened RegistryFixpoint

  // ---------------------------------------------------------------- write-back seen through the records

  /** A record after its slot adopted `e`. */
  function Adopted(n: Node, e: Entry): Node {
    n.(id := e.id, aliases := e.aliases)
  }

  lemma {:induction false} DeviceRecordsShape(ds: seq<Device>, k: nat)
    requires k < |DeviceRecords(ds)|
    ensures DeviceRecords(ds)[k].slot.DeviceSlot?
    ensures var j := DeviceRecords(ds)[k].slot.index;
      j < |ds| && ds[j].ip != "" && DeviceRecords(ds)[k] == DeviceRecord(ds[j], j)
  {
    if k < |DeviceRecords(ds[..|ds| - 1])| { DeviceRecordsShape(ds[..|ds| - 1], k); }
  }

  lemma {:induction false} AdoptDeviceRecords(ds: seq<Device>, k: nat, d: Device)
    requires k < |DeviceRecords(ds)| && DeviceRecords(ds)[k].slot.DeviceSlot?
    requires DeviceRecords(ds)[k].slot.index < |ds| && d.ip == ds[DeviceRecords(ds)[k].slot.index].ip != ""
    ensures var j := DeviceRecords(ds)[k].slot.index;
      DeviceRecords(ds[j := d]) == DeviceRecords(ds)[k := DeviceRecord(d, j)]
  {
    var init, j := ds[..|ds| - 1], DeviceRecords(ds)[k].slot.index;
    if k < |DeviceRecords(init)| {
      DeviceRecordsShape(init, k);
      AdoptDeviceRecords(init, k, d);
      assert ds[j := d][..|ds| - 1] == init[j := d];
    } else {
      assert ds[j := d][..|ds| - 1] == init;
    }
  }

  lemma UpdateTail<T>(head: seq<T>, tail: seq<T>, k: nat, x: T)
    requires |head| <= k < |head| + |tail|
    ensures (head + tail)[k := x] == head + tail[k - |head| := x]
  {
  }

  lemma AdoptedDevice(d: Device, j: nat, e: Entry)
    requires TextList(e.aliases) == e.aliases
    ensures DeviceRecord(AdoptDevice(d, e), j) == Adopted(DeviceRecord(d, j), e)
  {
  }

  lemma AdoptDeviceSlot(cfg: Config, k: nat, e: Entry)
    requires TextList(e.aliases) == e.aliases
    requires var p := if cfg.host == "" then 0 else 1; p <= k < p + |DeviceRecords(cfg.devices)|
    ensures LocalRecords(AdoptSlot(cfg, LocalRecords(cfg)[k].slot, e)) ==
            LocalRecords(cfg)[k := Adopted(LocalRecords(cfg)[k], e)]
  {
    var head, ds := if cfg.host == "" then [] else [PrimaryRecord(cfg)], DeviceRecords(cfg.devices);
    DeviceRecordsShape(cfg.devices, k - |head|);
    var j := ds[k - |head|].slot.index;
    var d := AdoptDevice(cfg.devices[j], e);
    AdoptDeviceRecords(cfg.devices, k - |head|, d);
    AdoptedDevice(cfg.devices[j], j, e);
    UpdateTail(head, ds, k, DeviceRecord(d, j));
  }

  lemma AdoptSlotRecords(cfg: Config, k: nat, e: Entry)
    requires k < |LocalRecords(cfg)| && TextList(e.aliases) == e.aliases
    ensures LocalRecords(AdoptSlot(cfg, LocalRecords(cfg)[k].slot, e)) ==
            LocalRecords(cfg)[k := Adopted(LocalRecords(cfg)[k], e)]
  {
    if cfg.host == "" || k > 0 { AdoptDeviceSlot(cfg, k, e); }
  }

  lemma AdoptSlotNoop(cfg: Config, k: nat, e: Entry)
    requires k < |LocalRecords(cfg)|
    requires LocalRecords(cfg)[k].id == e.id && LocalRecords(cfg)[k].aliases == e.aliases
    ensures AdoptSlot(cfg, LocalRecords(cfg)[k].slot, e) == cfg
  {
    var p := if cfg.host == "" then 0 else 1;
    if k >= p {
      DeviceRecordsShape(cfg.devices, k - p);
      var j := DeviceRecords(cfg.devices)[k - p].slot.index;
      assert cfg.devices[j := AdoptDevice(cfg.devices[j], e)] == cfg.devices;
    }
  }

  /** The first `m` records are this PC's slots, the others come from the shared file. */
  ghost predicate Split(nodes: seq<Node>, m: nat) {
    m <= |nodes| && forall i :: 0 <= i < |nodes| ==> (IsLocal(nodes[i]) <==> i < m)
  }

  lemma AdoptWellFormed(cfg: Config, k: nat, e: Entry)
    requires k < |LocalRecords(cfg)| && WellFormed(e)
    ensures LocalRecords(AdoptSlot(cfg, LocalRecords(cfg)[k].slot, e)) ==
            LocalRecords(cfg)[k := Adopted(LocalRecords(cfg)[k], e)]
  {
    SortedDistinct(e.aliases);
    TextListFixpoint(e.aliases);
    AdoptSlotRecords(cfg, k, e);
  }

  /** Slots below `n` carry the id and the aliases of their cluster. */
  ghost predicate WrittenBack(locals: seq<Node>, nodes: seq<Node>, v: View, n: nat, i: nat)
    requires |v| == |nodes|
  {
    i < |nodes| && i < |locals| && locals[i] == if i < n && v[i].Some? then Adopted(nodes[i], v[i].value) else nodes[i]
  }

  ghost predicate AllWrittenBack(locals: seq<Node>, nodes: seq<Node>, v: View, m: nat, n: nat)
    requires |v| == |nodes|
  {
    |locals| == m && forall i :: 0 <= i < m ==> WrittenBack(locals, nodes, v, n, i)
  }

  lemma WrittenBackStep(before: seq<Node>, after: seq<Node>, nodes: seq<Node>, v: View, m: nat, n: nat)
    requires |v| == |nodes| && 0 < n <= |nodes| && AllWrittenBack(before, nodes, v, m, n - 1)
    requires after == if n - 1 < m &&
      v[n - 1].Some? then before[n - 1 := Adopted(before[n - 1], v[n - 1].value)] else before
    ensures AllWrittenBack(after, nodes, v, m, n)
  {
    forall i | 0 <= i < m ensures WrittenBack(after, nodes, v, n, i) { assert WrittenBack(before, nodes, v, n - 1, i); }
  }

  /** After the write-back every slot carries the id and the aliases of its cluster, and nothing else changed. */
  lemma {:induction false} AdoptRecords(cfg: Config, nodes: seq<Node>, v: View, n: nat)
    requires |v| == |nodes| && n <= |nodes| && AllWellFormed(v)
    requires Split(nodes, |LocalRecords(cfg)|) && nodes[..|LocalRecords(cfg)|] == LocalRecords(cfg)
    ensures AllWrittenBack(LocalRecords(Adopt(cfg, nodes, v, n)), nodes, v, |LocalRecords(cfg)|, n)
  {
    var m := |LocalRecords(cfg)|;
    if n == 0 {
      forall i | 0 <= i < m ensures WrittenBack(LocalRecords(cfg), nodes, v, 0, i) {
        assert nodes[..m][i] == nodes[i];
      }
    } else {
      AdoptRecords(cfg, nodes, v, n - 1);
      var prev := Adopt(cfg, nodes, v, n - 1);
      var before := LocalRecords(prev);
      if n - 1 >= m {
        assert !IsLocal(nodes[n - 1]);
      } else {
        assert WrittenBack(before, nodes, v, n - 1, n - 1);
        if v[n - 1].Some? { AdoptWellFormed(prev, n - 1, v[n - 1].value); }
      }
      WrittenBackStep(before, LocalRecords(Adopt(cfg, nodes, v, n)), nodes, v, m, n);
    }
  }

  // ---------------------------------------------------------------- the second run's records

  function EntryRecord(e: Entry): Node {
    Node(e.id, e.hosts, e.aliases, e.name, NoSlot, e.primary)
  }

  /** Record `a` of the second run stands for the cluster of record `o[a]` of the first. */
  ghost predicate Stands(nodes: seq<Node>, v: View, m: nat, again: seq<Node>, o: seq<nat>, a: nat)
    requires |v| == |nodes| && |o| == |again| && a < |again|
  {
    && o[a] < |nodes| && v[o[a]].Some?
    && if a < m then o[a] == a && again[a] == Adopted(nodes[a], v[a].value) else again[a] == EntryRecord(v[o[a]].value)
  }

  ghost predicate Shared(c: seq<nat>, m: nat, o: seq<nat>, i: nat)
    requires i < |c|
  {
    exists a :: m <= a < |o| && o[a] < |c| && c[o[a]] == c[i]
  }

  /** The second run sees this PC's slots again and one shared record per cluster. */
  ghost predicate Image(nodes: seq<Node>, c: seq<nat>, v: View, m: nat, again: seq<Node>, o: seq<nat>) {
    && Faithful(nodes, c, v) && PerCluster(c, v) && AllWellFormed(v) && |o| == |again| && Split(nodes, m) &&
      Split(again, m)
    && (forall a {:trigger Stands(nodes, v, m, again, o, a)} :: 0 <= a < |again| ==> Stands(nodes, v, m, again, o, a))
    && (forall a, b :: m <= a < |again| && m <= b < |again| && o[a] < |c| && o[b] < |c| && c[o[a]] == c[o[b]] ==>
        a == b)
    && (forall i :: 0 <= i < |nodes| && v[i].Some? ==> Shared(c, m, o, i))
  }

  lemma ClusterIdentity(nodes: seq<Node>, c: seq<nat>, v: View, m: nat, again: seq<Node>, o: seq<nat>, a: nat,
          x: string)
    requires Image(nodes, c, v, m, again, o) && a < |again| && x in Identities(again[a])
    ensures o[a] < |nodes| && x in AllIds(ClusterOf(nodes, c, o[a])) && x != ""
  {
    assert Stands(nodes, v, m, again, o, a);
    assert ViewAt(nodes, c, v, o[a]);
    EntryShape(ClusterOf(nodes, c, o[a]));
    EntryMentions(ClusterOf(nodes, c, o[a]));
  }

  lemma ClusterHost(nodes: seq<Node>, c: seq<nat>, v: View, m: nat, again: seq<Node>, o: seq<nat>, a: nat, h: string)
    returns (i: nat)
    requires Image(nodes, c, v, m, again, o) && a < |again| && h in again[a].hosts
    ensures o[a] < |nodes| && i < |nodes| && c[i] == c[o[a]] && h in nodes[i].hosts
  {
    assert Stands(nodes, v, m, again, o, a);
    if a < m {
      i := a;
    } else {
      assert ViewAt(nodes, c, v, o[a]);
      EntryMentions(ClusterOf(nodes, c, o[a]));
      var local := h in HostsOf(ClusterOf(nodes, c, o[a]), true);
      GroupHost(nodes, c, c[o[a]], |nodes|, local, h);
      i :| 0 <= i < |nodes| && c[i] == c[o[a]] && h in nodes[i].hosts;
    }
  }

  /** Linked records of the second run stand for one cluster. */
  lemma LinkedOneCluster(nodes: seq<Node>, v: View, m: nat, again: seq<Node>, o: seq<nat>, a: nat, b: nat)
    requires Image(nodes, Clusters(nodes), v, m, again, o) && a < |again| && b < |again| && Linked(again[a], again[b])
    ensures o[a] < |nodes| && o[b] < |nodes|
    ensures Clusters(nodes)[o[a]] == Clusters(nodes)[o[b]]
  {
    var c := Clusters(nodes);
    if h :| h in again[a].hosts && h in again[b].hosts {
      var i := ClusterHost(nodes, c, v, m, again, o, a, h);
      var j := ClusterHost(nodes, c, v, m, again, o, b, h);
      assert Linked(nodes[i], nodes[j]);
      LinkedTogether(nodes, i, j);
    } else {
      var x :| x in Identities(again[a]) && x in Identities(again[b]);
      ClusterIdentity(nodes, c, v, m, again, o, a, x);
      ClusterIdentity(nodes, c, v, m, again, o, b, x);
      IdentityNamesCluster(nodes, c[o[a]], c[o[b]], x);
    }
  }

  /** Records that stand for one cluster share its id. */
  lemma OneClusterLinked(nodes: seq<Node>, c: seq<nat>, v: View, m: nat, again: seq<Node>, o: seq<nat>, a: nat, b: nat)
    requires Image(nodes, c, v, m, again, o) && a < |again| && b < |again|
    ensures o[a] < |nodes| && o[b] < |nodes|
    ensures c[o[a]] == c[o[b]] ==> Linked(again[a], again[b])
  {
    assert Stands(nodes, v, m, again, o, a) && Stands(nodes, v, m, again, o, b);
    if c[o[a]] == c[o[b]] {
      var x := v[o[a]].value.id;
      assert v[o[b]] == v[o[a]];
      assert x in Identities(again[a]) && x in Identities(again[b]) && x != "";
    }
  }

  /** In the second run two records are linked exactly when they stand for the same cluster. */
  lemma LinkedSameCluster(nodes: seq<Node>, v: View, m: nat, again: seq<Node>, o: seq<nat>, a: nat, b: nat)
    requires Image(nodes, Clusters(nodes), v, m, again, o) && a < |again| && b < |again|
    ensures o[a] < |nodes| && o[b] < |nodes|
    ensures Linked(again[a], again[b]) <==> Clusters(nodes)[o[a]] == Clusters(nodes)[o[b]]
  {
    OneClusterLinked(nodes, Clusters(nodes), v, m, again, o, a, b);
    if Linked(again[a], again[b]) { LinkedOneCluster(nodes, v, m, again, o, a, b); }
  }

  /** The second run's closure is the first run's clustering. */
  lemma ClosureSameCluster(nodes: seq<Node>, v: View, m: nat, again: seq<Node>, o: seq<nat>, a: nat, b: nat)
    requires Image(nodes, Clusters(nodes), v, m, again, o) && a < |again| && b < |again|
    ensures o[a] < |nodes| && o[b] < |nodes|
    ensures Closure(again)[a] == Closure(again)[b] <==> Clusters(nodes)[o[a]] == Clusters(nodes)[o[b]]
  {
    var c := Clusters(nodes);
    LinkedSameCluster(nodes, v, m, again, o, a, b);
    ClosureIsConnected(again, a, b);
    if Linked(again[a], again[b]) {
      LinkedConnected(again, a, b);
    }
    if Connected(again, a, b) {
      forall i | 0 <= i < |again| ensures o[i] < |nodes| { assert Stands(nodes, v, m, again, o, i); }
      var d := seq(|again|, i requires 0 <= i < |again| => c[o[i]]);
      forall i, j | 0 <= i < |again| && 0 <= j < |again| && Linked(again[i], again[j]) ensures d[i] == d[j] {
        LinkedSameCluster(nodes, v, m, again, o, i, j);
      }
      var p :| Chain(again, p) && p[0] == a && p[|p| - 1] == b;
      ChainInOneClass(again, d, p);
    }
  }

  // ---------------------------------------------------------------- the primary pass does nothing the second time

  lemma {:induction false} CountSame(nodes: seq<Node>, c: seq<nat>, r: nat, again: seq<Node>, d: seq<nat>, s: nat,
          n: nat)
    requires |c| == |nodes| && |d| == |again| && n <= |nodes| && n <= |again|
    requires forall i :: 0 <= i < n ==> IsLocal(nodes[i]) && IsLocal(again[i]) && (c[i] == r <==> d[i] == s)
    ensures LocalCount(nodes, c, r, n) == LocalCount(again, d, s, n)
  {
    if n > 0 { CountSame(nodes, c, r, again, d, s, n - 1); }
  }

  lemma {:induction false} CountTail(nodes: seq<Node>, c: seq<nat>, r: nat, m: nat, n: nat)
    requires |c| == |nodes| && m <= n <= |nodes| && Split(nodes, m)
    ensures LocalCount(nodes, c, r, n) == LocalCount(nodes, c, r, m)
  {
    if m < n { CountTail(nodes, c, r, m, n - 1); }
  }

  /** `d` clusters the second run's records as `c` clusters the records they stand for. */
  ghost predicate SameClusters(c: seq<nat>, d: seq<nat>, o: seq<nat>) {
    && |o| == |d| && (forall a :: 0 <= a < |o| ==> o[a] < |c|)
    && (forall a, b :: 0 <= a < |d| && 0 <= b < |d| ==> (d[a] == d[b] <==> c[o[a]] == c[o[b]]))
  }

  lemma ClosureSameClusters(nodes: seq<Node>, v: View, m: nat, again: seq<Node>, o: seq<nat>)
    requires Image(nodes, Clusters(nodes), v, m, again, o)
    ensures SameClusters(Clusters(nodes), Closure(again), o)
  {
    var c, d := Clusters(nodes), Closure(again);
    forall a | 0 <= a < |o| ensures o[a] < |c| { assert Stands(nodes, v, m, again, o, a); }
    forall a, b | 0 <= a < |d| && 0 <= b < |d| ensures d[a] == d[b] <==> c[o[a]] == c[o[b]] {
      ClosureSameCluster(nodes, v, m, again, o, a, b);
    }
  }

  /** The slots of a cluster are the same in both runs. */
  lemma SameSlots(nodes: seq<Node>, c: seq<nat>, v: View, m: nat, again: seq<Node>, o: seq<nat>, d: seq<nat>, a: nat)
    requires Image(nodes, c, v, m, again, o) && SameClusters(c, d, o) && a < |again|
    ensures forall i :: 0 <= i < m ==> IsLocal(nodes[i]) && IsLocal(again[i]) && (c[i] == c[o[a]] <==> d[i] == d[a])
    ensures forall i :: 0 <= i < m ==> again[i].hosts == nodes[i].hosts && again[i].name == nodes[i].name
  {
    forall i | 0 <= i < m
      ensures c[i] == c[o[a]] <==> d[i] == d[a]
      ensures again[i].hosts == nodes[i].hosts && again[i].name == nodes[i].name
    {
      assert Stands(nodes, v, m, again, o, i);
    }
  }

  lemma CountAgain(nodes: seq<Node>, c: seq<nat>, v: View, m: nat, again: seq<Node>, o: seq<nat>, d: seq<nat>, a: nat)
    requires Image(nodes, c, v, m, again, o) && SameClusters(c, d, o) && a < |again|
    ensures LocalCount(again, d, d[a], |again|) == LocalCount(nodes, c, c[o[a]], |nodes|)
  {
    SameSlots(nodes, c, v, m, again, o, d, a);
    CountSame(nodes, c, c[o[a]], again, d, d[a], m);
    CountTail(nodes, c, c[o[a]], m, |nodes|);
    CountTail(again, d, d[a], m, |again|);
  }

  lemma {:induction false} FirstPrimary(nodes: seq<Node>, n: nat)
    requires 0 < n <= |nodes| && nodes[0].primary
    ensures Primaries(nodes, n) != [] && Primaries(nodes, n)[0] == 0
  {
    if n > 1 { FirstPrimary(nodes, n - 1); }
  }

  /** A primary record of the second run stands for a cluster with a primary record. */
  lemma PrimaryMember(nodes: seq<Node>, c: seq<nat>, v: View, m: nat, again: seq<Node>, o: seq<nat>, p: nat)
    returns (i: nat)
    requires Image(nodes, c, v, m, again, o) && p < |again| && again[p].primary
    ensures o[p] < |nodes| && i < |nodes| && c[i] == c[o[p]] && nodes[i].primary
  {
    assert Stands(nodes, v, m, again, o, p);
    assert ViewAt(nodes, c, v, o[p]);
    GroupPrimary(nodes, c, c[o[p]], |nodes|);
    if p < m {
      i := p;
    } else {
      i :| 0 <= i < |nodes| && c[i] == c[o[p]] && nodes[i].primary;
    }
  }

  lemma PrimarySettledAgain(nodes: seq<Node>, v: View, m: nat, again: seq<Node>, o: seq<nat>, p: nat)
    requires Image(nodes, Clusters(nodes), v, m, again, o) && 0 < m && nodes[0].primary
    requires p < |again| && again[p].primary
    ensures Settled(again, Closure(again), 0, p)
  {
    var c := Clusters(nodes);
    assert Stands(nodes, v, m, again, o, p) && Stands(nodes, v, m, again, o, 0);
    FirstPrimary(nodes, |nodes|);
    PrimaryPassSettles(nodes, Closure(nodes));
    var i := PrimaryMember(nodes, c, v, m, again, o, p);
    assert Settled(nodes, c, 0, i);
    ClosureSameClusters(nodes, v, m, again, o);
    CountAgain(nodes, c, v, m, again, o, Closure(again), 0);
    CountAgain(nodes, c, v, m, again, o, Closure(again), p);
  }

  /** The second run clusters its records as the first run clustered theirs. */
  lemma ClustersAgain(nodes: seq<Node>, v: View, m: nat, again: seq<Node>, o: seq<nat>)
    requires Image(nodes, Clusters(nodes), v, m, again, o) && 0 < m && nodes[0].primary
    ensures Clusters(again) == Closure(again)
  {
    var c, d := Clusters(nodes), Closure(again);
    assert Stands(nodes, v, m, again, o, 0);
    FirstPrimary(again, |again|);
    var ps := Primaries(again, |again|);
    forall k | 0 <= k < |ps| ensures Settled(again, d, 0, ps[k]) {
      PrimarySettledAgain(nodes, v, m, again, o, ps[k]);
    }
    SettledFixpoint(again, d, 0, ps[1..]);
  }

  // ---------------------------------------------------------------- the second run's entries

  /** Slots record by record: the same hosts and name. */
  ghost predicate SlotsMatch(g: seq<Node>, h: seq<Node>) {
    |g| == |h| && forall k :: 0 <= k < |g| ==>
        IsLocal(g[k]) && IsLocal(h[k]) && h[k].hosts == g[k].hosts && h[k].name == g[k].name
  }

  lemma {:induction false} GroupsMatch(nodes: seq<Node>, c: seq<nat>, r: nat, again: seq<Node>, d: seq<nat>, s: nat,
          n: nat)
    requires |c| == |nodes| && |d| == |again| && n <= |nodes| && n <= |again|
    requires forall i :: 0 <= i < n ==> IsLocal(nodes[i]) && IsLocal(again[i]) && (c[i] == r <==> d[i] == s)
    requires forall i :: 0 <= i < n ==> again[i].hosts == nodes[i].hosts && again[i].name == nodes[i].name
    ensures SlotsMatch(Group(nodes, c, r, n), Group(again, d, s, n))
  {
    if n > 0 { GroupsMatch(nodes, c, r, again, d, s, n - 1); }
  }

  lemma {:induction false} MatchHosts(g: seq<Node>, h: seq<Node>)
    requires SlotsMatch(g, h)
    ensures HostsOf(h, true) == HostsOf(g, true) && HostsOf(h, false) == []
  {
    if g != [] { MatchHosts(g[..|g| - 1], h[..|h| - 1]); }
  }

  lemma {:induction false} LocalsAll(g: seq<Node>)
    requires forall i :: 0 <= i < |g| ==> IsLocal(g[i])
    ensures Locals(g) == g
  {
    if g != [] {
      LocalsAll(g[..|g| - 1]);
      assert g == g[..|g| - 1] + [g[|g| - 1]];
    }
  }

  lemma {:induction false} MatchNames(g: seq<Node>, h: seq<Node>)
    requires SlotsMatch(g, h)
    ensures FirstName(h) == FirstName(g)
  {
    if g != [] { MatchNames(g[..|g| - 1], h[..|h| - 1]); }
  }

  /** Hosts and names of this PC's slots in one cluster, in both runs. */
  lemma SlotsOfGroup(nodes: seq<Node>, c: seq<nat>, r: nat, again: seq<Node>, d: seq<nat>, s: nat, n: nat)
    requires |c| == |nodes| && |d| == |again| && n <= |nodes| && n <= |again|
    requires forall i :: 0 <= i < n ==> IsLocal(nodes[i]) && IsLocal(again[i]) && (c[i] == r <==> d[i] == s)
    requires forall i :: 0 <= i < n ==> again[i].hosts == nodes[i].hosts && again[i].name == nodes[i].name
    ensures HostsOf(Group(again, d, s, n), true) == HostsOf(Group(nodes, c, r, n), true)
    ensures HostsOf(Group(again, d, s, n), false) == []
    ensures FirstName(Locals(Group(again, d, s, n))) == FirstName(Locals(Group(nodes, c, r, n)))
    ensures FirstName(Group(again, d, s, n)) == FirstName(Locals(Group(again, d, s, n)))
  {
    GroupsMatch(nodes, c, r, again, d, s, n);
    MatchHosts(Group(nodes, c, r, n), Group(again, d, s, n));
    MatchNames(Group(nodes, c, r, n), Group(again, d, s, n));
    LocalsAll(Group(nodes, c, r, n));
    LocalsAll(Group(again, d, s, n));
  }

  lemma LocalsAppend(g: seq<Node>, n: Node)
    requires IsLocal(n)
    ensures Locals(g + [n]) == Locals(g) + [n]
    ensures FirstName(Locals(g + [n])) == if FirstName(Locals(g)) != "" then FirstName(Locals(g)) else n.name
    ensures FirstName(g + [n]) == if FirstName(g) != "" then FirstName(g) else n.name
  {
    assert (g + [n])[..|g|] == g;
    assert (Locals(g) + [n])[..|Locals(g)|] == Locals(g);
  }

  /** Shared records add nothing to the slots' part of a group. */
  lemma {:induction false} SlotsOnly(nodes: seq<Node>, c: seq<nat>, r: nat, m: nat, n: nat)
    requires |c| == |nodes| && m <= n <= |nodes| && Split(nodes, m)
    ensures HostsOf(Group(nodes, c, r, n), true) == HostsOf(Group(nodes, c, r, m), true)
    ensures Locals(Group(nodes, c, r, n)) == Locals(Group(nodes, c, r, m))
  {
    if m < n {
      SlotsOnly(nodes, c, r, m, n - 1);
      GroupStep(nodes, c, r, n);
    }
  }

  /** The only shared record of a group supplies its hosts as they are. */
  lemma FirstHosts(g: seq<Node>, n: Node)
    requires !IsLocal(n) && Distinct(n.hosts) && "" !in n.hosts && HostsOf(g, false) == []
    ensures HostsOf(g + [n], false) == n.hosts
  {
    assert (g + [n])[..|g|] == g;
    assert [] + n.hosts == n.hosts;
    TextListFixpoint(n.hosts);
  }

  /** One record alone from `m` on: the cluster gains it and nothing else. */
  lemma {:induction false} OneShared(again: seq<Node>, d: seq<nat>, m: nat, n: nat, a: nat)
    requires |d| == |again| && m <= n <= |again| && m <= a < |again|
    requires forall b :: m <= b < |again| && d[b] == d[a] ==> b == a
    ensures Group(again, d, d[a], n) ==
            if n <= a then Group(again, d, d[a], m) else Group(again, d, d[a], m) + [again[a]]
  {
    if m < n {
      OneShared(again, d, m, n - 1, a);
      GroupStep(again, d, d[a], n);
    }
  }

  /** The one shared record of a cluster supplies its hosts and, failing a slot's, its name. */
  lemma SharedHosts(again: seq<Node>, d: seq<nat>, m: nat, n: nat, a: nat)
    requires |d| == |again| && m <= n <= |again| && m <= a < |again| && !IsLocal(again[a])
    requires Distinct(again[a].hosts) && "" !in again[a].hosts
    requires forall b :: m <= b < |again| && d[b] == d[a] ==> b == a
    requires HostsOf(Group(again, d, d[a], m), false) == []
    ensures HostsOf(Group(again, d, d[a], n), false) == if n <= a then [] else again[a].hosts
  {
    OneShared(again, d, m, n, a);
    FirstHosts(Group(again, d, d[a], m), again[a]);
  }

  lemma SharedName(again: seq<Node>, d: seq<nat>, m: nat, n: nat, a: nat)
    requires |d| == |again| && m <= n <= |again| && m <= a < |again|
    requires forall b :: m <= b < |again| && d[b] == d[a] ==> b == a
    ensures FirstName(Group(again, d, d[a], n)) ==
            if n <= a || FirstName(Group(again, d, d[a], m)) != "" then FirstName(Group(again, d, d[a], m))
                else again[a].name
  {
    OneShared(again, d, m, n, a);
    var g := Group(again, d, d[a], m);
    assert (g + [again[a]])[..|g|] == g;
  }

  lemma {:induction false} IdOfMember(nodes: seq<Node>, c: seq<nat>, r: nat, n: nat, x: string)
    requires |c| == |nodes| && n <= |nodes| && x in Ids(Group(nodes, c, r, n))
    ensures exists i :: 0 <= i < n && c[i] == r && nodes[i].id == x
  {
    if n > 0 {
      GroupStep(nodes, c, r, n);
      if x in Ids(Group(nodes, c, r, n - 1)) { IdOfMember(nodes, c, r, n - 1, x); }
    }
  }

  /** Every record of the second run carries its cluster's id and aliases. */
  lemma IdentityAgain(nodes: seq<Node>, c: seq<nat>, v: View, m: nat, again: seq<Node>, o: seq<nat>, d: seq<nat>,
          a: nat, b: nat)
    requires Image(nodes, c, v, m, again, o) && SameClusters(c, d, o) && a < |again| && b < |again| && d[a] == d[b]
    ensures v[o[a]].Some? && again[b].id == v[o[a]].value.id && again[b].aliases == v[o[a]].value.aliases
  {
    assert Stands(nodes, v, m, again, o, a) && Stands(nodes, v, m, again, o, b);
  }

  lemma CanonicalAgain(nodes: seq<Node>, c: seq<nat>, v: View, m: nat, again: seq<Node>, o: seq<nat>, d: seq<nat>,
          a: nat)
    requires Image(nodes, c, v, m, again, o) && SameClusters(c, d, o) && a < |again|
    ensures v[o[a]].Some? && Ids(ClusterOf(again, d, a)) != []
    ensures Canonical(ClusterOf(again, d, a)) == v[o[a]].value.id
  {
    IdentityAgain(nodes, c, v, m, again, o, d, a, a);
    var g := ClusterOf(again, d, a);
    GroupId(again, d, d[a], |again|, a);
    CanonicalIsId(g);
    IdOfMember(again, d, d[a], |again|, Canonical(g));
    var i :| 0 <= i < |again| && d[i] == d[a] && again[i].id == Canonical(g);
    IdentityAgain(nodes, c, v, m, again, o, d, a, i);
  }

  lemma AliasesAgain(nodes: seq<Node>, c: seq<nat>, v: View, m: nat, again: seq<Node>, o: seq<nat>, d: seq<nat>, a: nat)
    requires Image(nodes, c, v, m, again, o) && SameClusters(c, d, o) && a < |again|
    ensures v[o[a]].Some? && Ids(ClusterOf(again, d, a)) != []
    ensures GroupAliases(ClusterOf(again, d, a)) == v[o[a]].value.aliases
  {
    CanonicalAgain(nodes, c, v, m, again, o, d, a);
    IdentityAgain(nodes, c, v, m, again, o, d, a, a);
    var e, g := v[o[a]].value, ClusterOf(again, d, a);
    AliasesShape(g);
    forall x ensures x in GroupAliases(g) <==> x in e.aliases {
      GroupIdentity(again, d, d[a], |again|, x);
      if x in AllIds(g) {
        var j :| 0 <= j < |again| && d[j] == d[a] && x in Identities(again[j]);
        IdentityAgain(nodes, c, v, m, again, o, d, a, j);
      }
      if x in e.aliases { assert x in Identities(again[a]); }
    }
    SortedDetermined(GroupAliases(g), e.aliases);
  }

  /** The shared record of the cluster that record `a` stands for. */
  lemma SharedRecord(nodes: seq<Node>, c: seq<nat>, v: View, m: nat, again: seq<Node>, o: seq<nat>, d: seq<nat>, a: nat)
    returns (s: nat)
    requires Image(nodes, c, v, m, again, o) && SameClusters(c, d, o) && a < |again|
    ensures m <= s < |again| && d[s] == d[a] && v[o[a]].Some?
    ensures again[s] == EntryRecord(v[o[a]].value)
    ensures forall b :: m <= b < |again| && d[b] == d[a] ==> b == s
  {
    assert Stands(nodes, v, m, again, o, a);
    assert Shared(c, m, o, o[a]);
    s :| m <= s < |o| && o[s] < |c| && c[o[s]] == c[o[a]];
    assert Stands(nodes, v, m, again, o, s);
  }

  lemma HostsAndNameAgain(nodes: seq<Node>, c: seq<nat>, v: View, m: nat, again: seq<Node>, o: seq<nat>, d: seq<nat>,
          a: nat)
    requires Image(nodes, c, v, m, again, o) && SameClusters(c, d, o) && a < |again|
    ensures v[o[a]].Some?
    ensures var g, e := ClusterOf(again, d, a), v[o[a]].value;
      && HostsOf(g, true) == HostsOf(ClusterOf(nodes, c, o[a]), true)
      && HostsOf(g, false) == e.hosts
      && FirstName(Locals(g)) == FirstName(Locals(ClusterOf(nodes, c, o[a])))
      && FirstName(g) == if FirstName(Locals(g)) != "" then FirstName(Locals(g)) else e.name
  {
    var s := SharedRecord(nodes, c, v, m, again, o, d, a);
    SameSlots(nodes, c, v, m, again, o, d, a);
    SlotsOfGroup(nodes, c, c[o[a]], again, d, d[a], m);
    SlotsOnly(nodes, c, c[o[a]], m, |nodes|);
    SlotsOnly(again, d, d[a], m, |again|);
    SharedHosts(again, d, m, |again|, s);
    SharedName(again, d, m, |again|, s);
  }

  lemma PrimaryAgain(nodes: seq<Node>, c: seq<nat>, v: View, m: nat, again: seq<Node>, o: seq<nat>, d: seq<nat>, a: nat)
    requires Image(nodes, c, v, m, again, o) && SameClusters(c, d, o) && a < |again|
    ensures v[o[a]].Some? && (AnyPrimary(ClusterOf(again, d, a)) <==> v[o[a]].value.primary)
  {
    var s := SharedRecord(nodes, c, v, m, again, o, d, a);
    GroupPrimary(again, d, d[a], |again|);
    GroupPrimary(nodes, c, c[o[a]], |nodes|);
    assert ViewAt(nodes, c, v, o[a]);
    if AnyPrimary(ClusterOf(again, d, a)) {
      var i: nat :| i < |again| && d[i] == d[a] && again[i].primary;
      assert Stands(nodes, v, m, again, o, i);
      if i < m { assert c[i] == c[o[a]] && nodes[i].primary; }
    }
  }

  /** The second run gives every cluster the entry the first run gave it. */
  lemma EntryAgain(nodes: seq<Node>, c: seq<nat>, v: View, m: nat, again: seq<Node>, o: seq<nat>, d: seq<nat>, a: nat)
    requires Image(nodes, c, v, m, again, o) && SameClusters(c, d, o) && a < |again|
    ensures v[o[a]].Some? && GroupView(ClusterOf(again, d, a)) == v[o[a]]
  {
    CanonicalAgain(nodes, c, v, m, again, o, d, a);
    AliasesAgain(nodes, c, v, m, again, o, d, a);
    HostsAndNameAgain(nodes, c, v, m, again, o, d, a);
    PrimaryAgain(nodes, c, v, m, again, o, d, a);
    var g, h, e := ClusterOf(again, d, a), ClusterOf(nodes, c, o[a]), v[o[a]].value;
    assert ViewAt(nodes, c, v, o[a]);
    SameGroupEntry(h, g, e);
  }

  /** Two clusters with the same slots, id, aliases and flag, the second fed by the first's entry, export the same. */
  lemma SameGroupEntry(h: seq<Node>, g: seq<Node>, e: Entry)
    requires Ids(h) != [] && Ids(g) != [] && e == GroupEntry(h) && WellFormed(e)
    requires Canonical(g) == e.id && GroupAliases(g) == e.aliases && AnyPrimary(g) == e.primary
    requires HostsOf(g, true) == HostsOf(h, true) && HostsOf(g, false) == e.hosts
    requires FirstName(Locals(g)) == FirstName(Locals(h))
    requires FirstName(g) == if FirstName(Locals(g)) != "" then FirstName(Locals(g)) else e.name
    ensures GroupEntry(g) == e
  {
    var local := HostsOf(g, true);
    assert e.hosts == Take(if local != [] then local else HostsOf(h, false), MAX_HOSTS);
    assert GroupEntry(g).hosts == e.hosts;
    assert GroupEntry(g).name == e.name;
  }

  // ---------------------------------------------------------------- the theorem

  /** The second run's clusters export what the first run's did. */
  lemma ViewAgain(nodes: seq<Node>, v: View, m: nat, again: seq<Node>, o: seq<nat>, w: View)
    requires Image(nodes, Clusters(nodes), v, m, again, o) && 0 < m && nodes[0].primary &&
      Faithful(again, Clusters(again), w)
    ensures SameClusters(Clusters(nodes), Clusters(again), o)
    ensures forall a :: 0 <= a < |again| ==> o[a] < |nodes| && v[o[a]].Some? && w[a] == v[o[a]]
  {
    var c, d := Clusters(nodes), Clusters(again);
    ClustersAgain(nodes, v, m, again, o);
    ClosureSameClusters(nodes, v, m, again, o);
    forall a | 0 <= a < |again| ensures o[a] < |nodes| && v[o[a]].Some? && w[a] == v[o[a]] {
      EntryAgain(nodes, c, v, m, again, o, d, a);
      assert ViewAt(again, d, w, a);
    }
  }

  lemma SameExports(nodes: seq<Node>, c: seq<nat>, v: View, m: nat, again: seq<Node>, o: seq<nat>, w: View, e: Entry)
    requires Image(nodes, c, v, m, again, o) && |w| == |again|
    requires forall a :: 0 <= a < |again| ==> o[a] < |nodes| && v[o[a]].Some? && w[a] == v[o[a]]
    ensures Some(e) in w <==> Some(e) in v
  {
    if Some(e) in w {
      var a :| 0 <= a < |w| && w[a] == Some(e);
      assert v[o[a]] == Some(e);
    }
    if Some(e) in v {
      var i :| 0 <= i < |v| && v[i] == Some(e);
      assert Shared(c, m, o, i);
      var a :| m <= a < |o| && o[a] < |c| && c[o[a]] == c[i];
      assert w[a] == Some(e);
    }
  }

  /** Both runs export the same list. */
  lemma EntriesAgain(nodes: seq<Node>, v: View, m: nat, again: seq<Node>, o: seq<nat>, w: View)
    requires Image(nodes, Clusters(nodes), v, m, again, o) && Faithful(again, Clusters(again), w)
    requires forall a :: 0 <= a < |again| ==> o[a] < |nodes| && v[o[a]].Some? && w[a] == v[o[a]]
    ensures SortEntries(Listed(Clusters(again), w)) == SortEntries(Listed(Clusters(nodes), v))
  {
    var c, d := Clusters(nodes), Clusters(again);
    FaithfulView(again, d, w);
    EntriesDistinct(nodes, v);
    EntriesDistinct(again, w);
    SortEntriesSorted(Listed(c, v));
    SortEntriesSorted(Listed(d, w));
    forall e ensures e in Listed(d, w) <==> e in Listed(c, v) {
      EntryMembers(c, v, e);
      EntryMembers(d, w, e);
      SameExports(nodes, c, v, m, again, o, w, e);
    }
    SortedEntriesDetermined(SortEntries(Listed(d, w)), SortEntries(Listed(c, v)));
  }

  lemma {:induction false} AdoptNothing(cfg: Config, again: seq<Node>, v: View, n: nat)
    requires |v| == |again| && n <= |again|
    requires Split(again, |LocalRecords(cfg)|) && again[..|LocalRecords(cfg)|] == LocalRecords(cfg)
    requires forall a :: 0 <= a < |LocalRecords(cfg)| && v[a].Some? ==>
      again[a].id == v[a].value.id && again[a].aliases == v[a].value.aliases
    ensures Adopt(cfg, again, v, n) == cfg
  {
    if n > 0 {
      AdoptNothing(cfg, again, v, n - 1);
      if n - 1 < |LocalRecords(cfg)| {
        assert again[..|LocalRecords(cfg)|][n - 1] == again[n - 1];
        if v[n - 1].Some? { AdoptSlotNoop(cfg, n - 1, v[n - 1].value); }
      } else {
        assert !IsLocal(again[n - 1]);
      }
    }
  }

  lemma {:induction false} RemoteNotLocal(es: seq<Entry>)
    ensures forall k :: 0 <= k < |RemoteRecords(es)| ==> !IsLocal(RemoteRecords(es)[k])
  {
    if es != [] { RemoteNotLocal(es[..|es| - 1]); }
  }

  lemma {:induction false} DeviceLocal(ds: seq<Device>)
    ensures forall k :: 0 <= k < |DeviceRecords(ds)| ==> IsLocal(DeviceRecords(ds)[k])
  {
    if ds != [] { DeviceLocal(ds[..|ds| - 1]); }
  }

  lemma RecordsSplit(cfg: Config, remote: seq<Entry>)
    ensures Split(Records(cfg, remote), |LocalRecords(cfg)|)
    ensures Records(cfg, remote)[..|LocalRecords(cfg)|] == LocalRecords(cfg)
  {
    RemoteNotLocal(remote);
    DeviceLocal(cfg.devices);
  }

  /** A record whose cluster exports `e`. */
  ghost function HeadOf(v: View, e: Entry): nat {
    if i: nat :| i < |v| && v[i] == Some(e) then i else 0
  }

  lemma HeadOfEntry(c: seq<nat>, v: View, e: Entry)
    requires PerCluster(c, v) && e in Listed(c, v)
    ensures HeadOf(v, e) < |v| && v[HeadOf(v, e)] == Some(e)
  {
    EntryMembers(c, v, e);
    var i: nat :| i < |v| && v[i] == Some(e);
  }

  ghost function Origin(v: View, m: nat, es: seq<Entry>, a: nat): nat
    requires a < m + |es|
  {
    if a < m then a else HeadOf(v, es[a - m])
  }

  /** Each record of the second run, traced to a record of its cluster in the first. */
  ghost function Origins(v: View, m: nat, es: seq<Entry>): (o: seq<nat>)
    ensures |o| == m + |es|
    ensures forall a :: 0 <= a < |o| ==> o[a] == Origin(v, m, es, a)
  {
    seq(m + |es|, a requires 0 <= a < m + |es| => Origin(v, m, es, a))
  }

  /** The sorted export of `v`, whose ids name the clusters of `c`. */
  ghost predicate Exports(c: seq<nat>, v: View, es: seq<Entry>) {
    && PerCluster(c, v) && AllWellFormed(v)
    && EntriesSorted(es) && (forall e :: e in es <==> e in Listed(c, v))
    && (forall i, j :: 0 <= i < |v| && 0 <= j < |v| && v[i].Some? && v[j].Some? && v[i].value.id == v[j].value.id ==>
        c[i] == c[j])
  }

  /** The shared list is read back record for record. */
  lemma ExportReadBack(c: seq<nat>, v: View, es: seq<Entry>)
    requires Exports(c, v, es)
    ensures |RemoteRecords(es)| == |es|
    ensures forall k :: 0 <= k < |es| ==> RemoteRecords(es)[k] == EntryRecord(es[k])
  {
    forall k | 0 <= k < |es| ensures WellFormed(es[k]) && RemoteRecord(es[k]) == EntryRecord(es[k]) {
      assert es[k] in es;
      HeadOfEntry(c, v, es[k]);
      ReadBack(es[k]);
    }
    ReadBackAll(es);
  }

  lemma AllShared(c: seq<nat>, v: View, m: nat, es: seq<Entry>, i: nat)
    requires Exports(c, v, es) && i < |v| && v[i].Some?
    ensures Shared(c, m, Origins(v, m, es), i)
  {
    var e, o := v[i].value, Origins(v, m, es);
    EntryMembers(c, v, e);
    assert e in es;
    var k :| 0 <= k < |es| && es[k] == e;
    HeadOfEntry(c, v, e);
    assert o[m + k] == HeadOf(v, e) && c[o[m + k]] == c[i];
  }

  lemma RecordStands(nodes: seq<Node>, c: seq<nat>, v: View, m: nat, es: seq<Entry>, locals: seq<Node>, a: nat)
    requires |v| == |nodes| && Exports(c, v, es) && m <= |nodes| && |locals| == m && a < m + |es|
    requires a < m ==> v[a].Some? && WrittenBack(locals, nodes, v, |nodes|, a)
    ensures |locals + RemoteRecords(es)| == m + |es|
    ensures Stands(nodes, v, m, locals + RemoteRecords(es), Origins(v, m, es), a)
  {
    var again := locals + RemoteRecords(es);
    ExportReadBack(c, v, es);
    if a < m {
      assert again[a] == locals[a];
    } else {
      assert again[a] == RemoteRecords(es)[a - m] && es[a - m] in es;
      HeadOfEntry(c, v, es[a - m]);
    }
  }

  lemma OriginsApart(c: seq<nat>, v: View, m: nat, es: seq<Entry>)
    requires Exports(c, v, es)
    ensures var o := Origins(v, m, es);
      forall a, b :: m <= a < |o| && m <= b < |o| && o[a] < |c| && o[b] < |c| && c[o[a]] == c[o[b]] ==> a == b
  {
    var o := Origins(v, m, es);
    forall a, b | m <= a < |o| && m <= b < |o| && o[a] < |c| && o[b] < |c| && c[o[a]] == c[o[b]] ensures a == b {
      assert es[a - m] in es && es[b - m] in es;
      HeadOfEntry(c, v, es[a - m]);
      HeadOfEntry(c, v, es[b - m]);
      assert v[o[a]] == v[o[b]];
      EntryLessTotal(es[a - m], es[b - m]);
    }
  }

  /** What the first run leaves behind, as records: the written-back slots and the shared list. */
  lemma ImageHolds(nodes: seq<Node>, c: seq<nat>, v: View, m: nat, es: seq<Entry>, locals: seq<Node>)
    requires Faithful(nodes, c, v) && Exports(c, v, es) && |locals| == m
    requires Split(nodes, m) && Split(locals + RemoteRecords(es), m) && |RemoteRecords(es)| == |es|
    requires forall a :: 0 <= a < m ==> v[a].Some? && WrittenBack(locals, nodes, v, |nodes|, a)
    ensures Image(nodes, c, v, m, locals + RemoteRecords(es), Origins(v, m, es))
  {
    var again, o := locals + RemoteRecords(es), Origins(v, m, es);
    forall a | 0 <= a < |again| ensures Stands(nodes, v, m, again, o, a) {
      RecordStands(nodes, c, v, m, es, locals, a);
    }
    forall i | 0 <= i < |nodes| && v[i].Some? ensures Shared(c, m, o, i) {
      AllShared(c, v, m, es, i);
    }
    OriginsApart(c, v, m, es);
  }

  lemma RunExports(nodes: seq<Node>, v: View)
    requires Faithful(nodes, Clusters(nodes), v)
    ensures Exports(Clusters(nodes), v, SortEntries(Listed(Clusters(nodes), v)))
  {
    var c := Clusters(nodes);
    FaithfulView(nodes, c, v);
    EntriesDistinct(nodes, v);
    SortEntriesSorted(Listed(c, v));
    forall i, j | 0 <= i < |v| && 0 <= j < |v| && v[i].Some? && v[j].Some? && v[i].value.id == v[j].value.id
      ensures c[i] == c[j]
    {
      EntryNamesCluster(nodes, v, i, j);
    }
  }

  /** A slot with an id is in a cluster that exports something. */
  lemma SlotExported(nodes: seq<Node>, c: seq<nat>, v: View, a: nat)
    requires Faithful(nodes, c, v) && a < |nodes| && nodes[a].id != ""
    ensures v[a].Some?
  {
    assert ViewAt(nodes, c, v, a);
    GroupId(nodes, c, c[a], |nodes|, a);
  }

  lemma ImageOfRun(cfg: Config, remote: seq<Entry>, nodes: seq<Node>, v: View, es: seq<Entry>, next: Config)
    returns (o: seq<nat>)
    requires forall k :: 0 <= k < |LocalRecords(cfg)| ==> LocalRecords(cfg)[k].id != ""
    requires nodes == Records(cfg, remote) && Faithful(nodes, Clusters(nodes), v)
    requires es == SortEntries(Listed(Clusters(nodes), v)) && next == Adopt(cfg, nodes, v, |nodes|)
    ensures |LocalRecords(next)| == |LocalRecords(cfg)|
    ensures Image(nodes, Clusters(nodes), v, |LocalRecords(cfg)|, Records(next, es), o)
  {
    var c, m := Clusters(nodes), |LocalRecords(cfg)|;
    RunExports(nodes, v);
    RecordsSplit(cfg, remote);
    RecordsSplit(next, es);
    AdoptRecords(cfg, nodes, v, |nodes|);
    forall a | 0 <= a < m ensures v[a].Some? {
      assert nodes[..m][a] == nodes[a];
      SlotExported(nodes, c, v, a);
    }
    ExportReadBack(c, v, es);
    ImageHolds(nodes, c, v, m, es, LocalRecords(next));
    o := Origins(v, m, es);
  }

  /** Registry fixpoint: with a primary host and ids for every slot of this PC, reconciling again on
      the written configuration and the exported list gives the same list and changes nothing. */
  lemma ReconcileAgain(cfg: Config, remote: seq<Entry>)
    requires cfg.host != ""
    requires forall k :: 0 <= k < |LocalRecords(cfg)| ==> LocalRecords(cfg)[k].id != ""
    ensures var (es, next) := Reconcile(cfg, remote);
      Reconcile(next, es) == (es, next)
  {
    var nodes, m := Records(cfg, remote), |LocalRecords(cfg)|;
    var (es, next) := Reconcile(cfg, remote);
    var again := Records(next, es);
    var c, d := Clusters(nodes), Clusters(again);
    var v, w := EntriesPer(nodes, c), EntriesPer(again, d);
    EntriesPerFaithful(nodes, c);
    EntriesPerFaithful(again, d);
    var o := ImageOfRun(cfg, remote, nodes, v, es, next);
    ViewAgain(nodes, v, m, again, o, w);
    EntriesAgain(nodes, v, m, again, o, w);
    RecordsSplit(next, es);
    forall a | 0 <= a < m && w[a].Some?
      ensures again[a].id == w[a].value.id && again[a].aliases == w[a].value.aliases
    {
      IdentityAgain(nodes, c, v, m, again, o, d, a, a);
    }
    AdoptNothing(next, again, w, |again|);
  }
}
