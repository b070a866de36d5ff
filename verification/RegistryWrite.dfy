/**
 The second half of `reconcile_config_devices`: one export entry per cluster, and the ids and
 aliases written back into the configuration in place.
 */
module RegistryWrite {
  import opened Wrappers
  import opened Ordering
  import opened UnionFind
  import opened DeviceRegistry
  import opened RegistryProofs
  import opened RegistryFixpoint
  import opened RegistryStable
  import opened RegistryRun
  import opened RegistryExport

  // ---------------------------------------------------------------- only the partition matters

  lemma {:induction false} CountCongruent(nodes: seq<Node>, c: seq<nat>, d: seq<nat>, a: nat, n: nat)
    requires |c| == |nodes| && SamePartition(c, d) && a < |nodes| && n <= |nodes|
    ensures LocalCount(nodes, c, c[a], n) == LocalCount(nodes, d, d[a], n)
  {
    if n > 0 { CountCongruent(nodes, c, d, a, n - 1); }
  }

  lemma PrimaryStepCongruent(nodes: seq<Node>, c: seq<nat>, d: seq<nat>, h: nat, i: nat)
    requires |c| == |nodes| && SamePartition(c, d) && h < |nodes| && i < |nodes|
    ensures SamePartition(PrimaryStep(nodes, c, h, i), PrimaryStep(nodes, d, h, i))
  {
    CountCongruent(nodes, c, d, h, |nodes|);
    CountCongruent(nodes, c, d, i, |nodes|);
  }

  lemma {:induction false} PrimaryFoldCongruent(nodes: seq<Node>, c: seq<nat>, d: seq<nat>, h: nat, ps: seq<nat>)
    requires |c| == |nodes| && SamePartition(c, d) && h < |nodes| && forall k :: 0 <= k < |ps| ==> ps[k] < |nodes|
    ensures SamePartition(PrimaryFold(nodes, c, h, ps), PrimaryFold(nodes, d, h, ps))
  {
    if ps != [] {
      var init := ps[..|ps| - 1];
      PrimaryFoldCongruent(nodes, c, d, h, init);
      PrimaryStepCongruent(nodes, PrimaryFold(nodes, c, h, init), PrimaryFold(nodes, d, h, init), h, ps[|ps| - 1]);
    }
  }

  lemma PrimaryPassCongruent(nodes: seq<Node>, c: seq<nat>, d: seq<nat>)
    requires |c| == |nodes| && SamePartition(c, d)
    ensures SamePartition(PrimaryPass(nodes, c), PrimaryPass(nodes, d))
  {
    var ps := Primaries(nodes, |nodes|);
    if ps != [] { PrimaryFoldCongruent(nodes, c, d, ps[0], ps[1..]); }
  }

  lemma {:induction false} GroupCongruent(nodes: seq<Node>, c: seq<nat>, d: seq<nat>, a: nat, n: nat)
    requires |c| == |nodes| && SamePartition(c, d) && a < |nodes| && n <= |nodes|
    ensures Group(nodes, c, c[a], n) == Group(nodes, d, d[a], n)
  {
    if n > 0 { GroupCongruent(nodes, c, d, a, n - 1); }
  }

  lemma EntriesPerCongruent(nodes: seq<Node>, c: seq<nat>, d: seq<nat>)
    requires |c| == |nodes| && SamePartition(c, d)
    ensures EntriesPer(nodes, c) == EntriesPer(nodes, d)
  {
    forall i | 0 <= i < |nodes| ensures EntriesPer(nodes, c)[i] == EntriesPer(nodes, d)[i] {
      GroupCongruent(nodes, c, d, i, |nodes|);
    }
  }

  lemma {:induction false} HeadsCongruent(c: seq<nat>, d: seq<nat>, v: View, n: nat)
    requires |c| == |v| && SamePartition(c, d) && n <= |c|
    ensures Heads(c, v, n) == Heads(d, v, n)
  {
    if n > 0 { HeadsCongruent(c, d, v, n - 1); }
  }

  // ---------------------------------------------------------------- one entry

  predicate CleanHosts(g: seq<Node>) {
    forall i :: 0 <= i < |g| ==> "" !in g[i].hosts
  }

  method AddHosts(known: seq<string>, hosts: seq<string>) returns (out: seq<string>)
    requires TextList(known) == known && "" !in hosts
    ensures out == TextList(known + hosts)
  {
    out := known;
    assert known + hosts[..0] == known;
    for k := 0 to |hosts|
      invariant out == TextList(known + hosts[..k])
    {
      assert (known + hosts[..k + 1])[..|known| + k] == known + hosts[..k];
      assert hosts[k] in hosts;
      if hosts[k] !in out { out := out + [hosts[k]]; }
    }
    assert hosts[..|hosts|] == hosts;
  }

  method GroupHosts(g: seq<Node>, local: bool) returns (out: seq<string>)
    requires CleanHosts(g)
    ensures out == HostsOf(g, local)
  {
    out := [];
    for i := 0 to |g|
      invariant out == HostsOf(g[..i], local)
    {
      assert g[..i + 1][..i] == g[..i];
      HostsDistinct(g[..i], local);
      TextListFixpoint(out);
      if IsLocal(g[i]) == local { out := AddHosts(out, g[i].hosts); }
    }
    assert g[..|g|] == g;
  }

  method GroupName(g: seq<Node>) returns (name: string)
    ensures name == if FirstName(Locals(g)) != "" then FirstName(Locals(g)) else FirstName(g)
  {
    name := "";
    for i := 0 to |g|
      invariant name == FirstName(Locals(g[..i]))
    {
      assert g[..i + 1][..i] == g[..i];
      if IsLocal(g[i]) {
        LocalsAppend(g[..i], g[i]);
        assert g[..i + 1] == g[..i] + [g[i]];
        if g[i].name != "" && name == "" { name := g[i].name; }
      } else {
        assert Locals(g[..i + 1]) == Locals(g[..i]);
      }
    }
    assert g[..|g|] == g;
    if name == "" {
      for i := 0 to |g|
        invariant name == "" == FirstName(g[..i])
      {
        assert g[..i + 1][..i] == g[..i];
        if g[i].name != "" {
          name := g[i].name;
          FirstNameStays(g, i + 1);
          break;
        }
      }
    }
  }

  lemma {:induction false} FirstNameStays(g: seq<Node>, n: nat)
    requires n <= |g| && FirstName(g[..n]) != ""
    ensures FirstName(g) == FirstName(g[..n])
    decreases |g|
  {
    if n < |g| {
      assert g[..|g| - 1][..n] == g[..n];
      FirstNameStays(g[..|g| - 1], n);
    } else {
      assert g[..n] == g;
    }
  }

  /** Every other id and alias of the cluster, sorted. */
  method CollectAliases(g: seq<Node>, canonical: string) returns (aliases: seq<string>)
    ensures aliases == SortUnique(Without(Without(AllIds(g), ""), canonical))
  {
    aliases := [];
    for i := 0 to |g|
      invariant forall a :: a in aliases <==> a in AllIds(g[..i]) && a != "" && a != canonical
    {
      assert g[..i + 1][..i] == g[..i];
      var known, own := aliases, g[i].aliases;
      if g[i].id != "" && g[i].id != canonical && g[i].id !in aliases { aliases := aliases + [g[i].id]; }
      ghost var start := aliases;
      for k := 0 to |own|
        invariant forall a :: a in aliases <==> a in start || (a in own[..k] && a != "" && a != canonical)
      {
        assert own[..k + 1] == own[..k] + [own[k]];
        if own[k] != "" && own[k] != canonical && own[k] !in aliases { aliases := aliases + [own[k]]; }
      }
      assert own[..|own|] == own;
      assert AllIds(g[..i + 1]) == AllIds(g[..i]) + Identities(g[i]);
    }
    assert g[..|g|] == g;
    SortUniqueCongruent(aliases, Without(Without(AllIds(g), ""), canonical));
    aliases := SortUnique(aliases);
  }

  lemma {:induction false} WholeGroup(g: seq<Node>, n: nat)
    requires n <= |g|
    ensures Group(g, seq(|g|, i => 0), 0, n) == g[..n]
    ensures n == |g| ==> Group(g, seq(|g|, i => 0), 0, n) == g
  {
    if n > 0 {
      WholeGroup(g, n - 1);
      assert g[..n] == g[..n - 1] + [g[n - 1]];
    }
  }

  method BuildEntry(g: seq<Node>) returns (e: Entry)
    requires Ids(g) != [] && CleanHosts(g)
    ensures e == GroupEntry(g)
    ensures Describes(g, seq(|g|, i => 0), 0, e)
  {
    var canonical := Canonical(g);
    var name := GroupName(g);
    var aliases := CollectAliases(g, canonical);
    var localHosts := GroupHosts(g, true);
    var remoteHosts := GroupHosts(g, false);
    var hosts := Take(if localHosts != [] then localHosts else remoteHosts, MAX_HOSTS);
    e := Entry(canonical, hosts, "", aliases, name, AnyPrimary(g));
    WholeGroup(g, |g|);
    EntryDescribes(g, seq(|g|, i => 0), 0);
  }

  // ---------------------------------------------------------------- write-back in any order

  /** The slot of record `i` holds what its cluster prescribes when `i` is done, and its old value otherwise. */
  ghost predicate SlotWritten(cfg: Config, out: Config, nodes: seq<Node>, v: View, done: set<nat>, i: nat)
    requires |v| == |nodes| && i < |nodes|
  {
    var now := i in done && v[i].Some?;
    match nodes[i].slot
    case NoSlot => true
    case PrimarySlot =>
      var want := if now then AdoptPrimary(cfg, v[i].value) else cfg;
      out.primaryId == want.primaryId && out.primaryAliases == want.primaryAliases
    case DeviceSlot(j) =>
      j < |cfg.devices| == |out.devices| &&
      out.devices[j] == if now then AdoptDevice(cfg.devices[j], v[i].value) else cfg.devices[j]
  }

  ghost predicate HasSlot(nodes: seq<Node>, s: Slot) {
    exists i :: 0 <= i < |nodes| && nodes[i].slot == s
  }

  ghost predicate Written(cfg: Config, out: Config, nodes: seq<Node>, v: View, done: set<nat>)
    requires |v| == |nodes|
  {
    && out.host == cfg.host && |out.devices| == |cfg.devices|
    && (forall i {:trigger SlotWritten(cfg, out, nodes, v, done, i)} :: 0 <= i < |nodes| ==>
        SlotWritten(cfg, out, nodes, v, done, i))
    && (HasSlot(nodes, PrimarySlot) || (out.primaryId == cfg.primaryId && out.primaryAliases == cfg.primaryAliases))
    && (forall j: nat :: j < |cfg.devices| ==> HasSlot(nodes, DeviceSlot(j)) || out.devices[j] == cfg.devices[j])
  }

  ghost predicate OwnSlots(nodes: seq<Node>) {
    forall i, j :: 0 <= i < |nodes| && 0 <= j < |nodes| && IsLocal(nodes[i]) && nodes[i].slot == nodes[j].slot ==>
        i == j
  }

  lemma WrittenStart(cfg: Config, nodes: seq<Node>, v: View)
    requires |v| == |nodes| && forall i :: 0 <= i < |nodes| && nodes[i].slot.DeviceSlot? ==>
        nodes[i].slot.index < |cfg.devices|
    ensures Written(cfg, cfg, nodes, v, {})
  {
  }

  lemma WrittenStep(cfg: Config, out: Config, nodes: seq<Node>, v: View, done: set<nat>, i: nat)
    requires |v| == |nodes| && i < |nodes| && i !in done && OwnSlots(nodes) && Written(cfg, out, nodes, v, done)
    ensures var next := AdoptStep(out, nodes[i].slot, v[i]);
      Written(cfg, next, nodes, v, done + {i}) && (out != cfg ==> next != cfg)
  {
    var next := AdoptStep(out, nodes[i].slot, v[i]);
    assert SlotWritten(cfg, out, nodes, v, done, i);
    forall k | 0 <= k < |nodes| ensures SlotWritten(cfg, next, nodes, v, done + {i}, k) {
      assert SlotWritten(cfg, out, nodes, v, done, k);
    }
    assert nodes[i].slot == PrimarySlot ==> HasSlot(nodes, PrimarySlot);
    assert nodes[i].slot.DeviceSlot? ==> HasSlot(nodes, nodes[i].slot);
    if next == cfg { assert out.devices == cfg.devices; }
  }

  lemma WrittenUnique(cfg: Config, a: Config, b: Config, nodes: seq<Node>, v: View, done: set<nat>)
    requires |v| == |nodes| && Written(cfg, a, nodes, v, done) && Written(cfg, b, nodes, v, done)
    ensures a == b
  {
    forall j | 0 <= j < |cfg.devices| ensures a.devices[j] == b.devices[j] {
      if HasSlot(nodes, DeviceSlot(j)) {
        var i :| 0 <= i < |nodes| && nodes[i].slot == DeviceSlot(j);
        assert SlotWritten(cfg, a, nodes, v, done, i) && SlotWritten(cfg, b, nodes, v, done, i);
      }
    }
    assert a.devices == b.devices;
    if HasSlot(nodes, PrimarySlot) {
      var i :| 0 <= i < |nodes| && nodes[i].slot == PrimarySlot;
      assert SlotWritten(cfg, a, nodes, v, done, i) && SlotWritten(cfg, b, nodes, v, done, i);
    }
  }

  lemma WrittenSkip(cfg: Config, out: Config, nodes: seq<Node>, v: View, done: set<nat>, more: set<nat>)
    requires |v| == |nodes| && Written(cfg, out, nodes, v, done)
    requires forall i :: i in more ==> i < |nodes| && v[i].None?
    ensures Written(cfg, out, nodes, v, done + more)
  {
    forall k | 0 <= k < |nodes| ensures SlotWritten(cfg, out, nodes, v, done + more, k) {
      assert SlotWritten(cfg, out, nodes, v, done, k);
    }
  }

  function SetOf(ms: seq<nat>): set<nat> {
    set i | i in ms
  }

  function UpTo(n: nat): (s: set<nat>)
    ensures forall i: nat :: i in s <==> i < n
  {
    if n == 0 then {} else UpTo(n - 1) + {n - 1}
  }

  /** `Adopt` is the write-back in record order. */
  lemma {:induction false} AdoptWritten(cfg: Config, nodes: seq<Node>, v: View, n: nat)
    requires |v| == |nodes| && n <= |nodes| && OwnSlots(nodes)
    requires forall i :: 0 <= i < |nodes| && nodes[i].slot.DeviceSlot? ==> nodes[i].slot.index < |cfg.devices|
    ensures Written(cfg, Adopt(cfg, nodes, v, n), nodes, v, UpTo(n))
  {
    if n == 0 {
      WrittenStart(cfg, nodes, v);
    } else {
      AdoptWritten(cfg, nodes, v, n - 1);
      WrittenStep(cfg, Adopt(cfg, nodes, v, n - 1), nodes, v, UpTo(n - 1), n - 1);
    }
  }

  lemma {:induction false} DeviceSlotsRise(ds: seq<Device>)
    ensures forall i, j :: 0 <= i < j < |DeviceRecords(ds)| ==> DeviceRecords(ds)[i].slot != DeviceRecords(ds)[j].slot
  {
    if ds != [] {
      var init := DeviceRecords(ds[..|ds| - 1]);
      DeviceSlotsRise(ds[..|ds| - 1]);
      forall i | 0 <= i < |init| ensures init[i].slot != DeviceSlot(|ds| - 1) { DeviceRecordsShape(ds[..|ds| - 1], i); }
    }
  }

  lemma TakeFrom(xs: seq<string>, n: nat)
    ensures forall x :: x in Take(xs, n) ==> x in xs
  {
  }

  lemma {:induction false} RemoteClean(es: seq<Entry>)
    ensures CleanHosts(RemoteRecords(es))
  {
    if es != [] {
      RemoteClean(es[..|es| - 1]);
      TakeFrom(TextList(es[|es| - 1].hosts + [es[|es| - 1].single]), MAX_HOSTS);
    }
  }

  /** Every record of this PC has its own slot in the configuration, and no record a blank host. */
  lemma RecordsOwnSlots(cfg: Config, remote: seq<Entry>)
    ensures OwnSlots(Records(cfg, remote)) && CleanHosts(Records(cfg, remote))
    ensures forall i :: 0 <= i < |Records(cfg, remote)| && Records(cfg, remote)[i].slot.DeviceSlot? ==>
              Records(cfg, remote)[i].slot.index < |cfg.devices|
  {
    DeviceSlotsRise(cfg.devices);
    RemoteNotLocal(remote);
    RemoteClean(remote);
    forall k | 0 <= k < |DeviceRecords(cfg.devices)|
      ensures DeviceRecords(cfg.devices)[k].slot.DeviceSlot? && DeviceRecords(cfg.devices)[k].slot.index < |cfg.devices|
      ensures "" !in DeviceRecords(cfg.devices)[k].hosts
    {
      DeviceRecordsShape(cfg.devices, k);
    }
  }

  // ---------------------------------------------------------------- clusters in order of first appearance

  /** The labels of the first `n` records in order of first appearance. */
  function Roots(c: seq<nat>, n: nat): seq<nat>
    requires n <= |c|
  {
    if n == 0 then []
    else Roots(c, n - 1) + (if c[n - 1] in Roots(c, n - 1) then [] else [c[n - 1]])
  }

  lemma {:induction false} RootsExact(c: seq<nat>, n: nat, r: nat)
    requires n <= |c|
    ensures r in Roots(c, n) <==> exists i :: 0 <= i < n && c[i] == r
  {
    if n > 0 { RootsExact(c, n - 1, r); }
  }

  lemma {:induction false} RootsDistinct(c: seq<nat>, n: nat)
    requires n <= |c|
    ensures forall i, j :: 0 <= i < j < |Roots(c, n)| ==> Roots(c, n)[i] != Roots(c, n)[j]
  {
    if n > 0 { RootsDistinct(c, n - 1); }
  }

  function Members(c: seq<nat>, r: nat, n: nat): seq<nat>
    requires n <= |c|
  {
    if n == 0 then [] else Members(c, r, n - 1) + (if c[n - 1] == r then [n - 1] else [])
  }

  lemma {:induction false} MembersExact(c: seq<nat>, r: nat, n: nat)
    requires n <= |c|
    ensures forall i: nat :: i in Members(c, r, n) <==> i < n && c[i] == r
    ensures forall k :: 0 <= k < |Members(c, r, n)| ==> Members(c, r, n)[k] < n && c[Members(c, r, n)[k]] == r
    ensures forall j, k :: 0 <= j < k < |Members(c, r, n)| ==> Members(c, r, n)[j] != Members(c, r, n)[k]
  {
    if n > 0 { MembersExact(c, r, n - 1); }
  }

  /** The records at the given indices. */
  function Gather(nodes: seq<Node>, ms: seq<nat>): seq<Node> {
    if ms == [] then []
    else Gather(nodes, ms[..|ms| - 1]) + (if ms[|ms| - 1] < |nodes| then [nodes[ms[|ms| - 1]]] else [])
  }

  lemma GatherAppend(nodes: seq<Node>, ms: seq<nat>, i: nat)
    requires i < |nodes|
    ensures Gather(nodes, ms + [i]) == Gather(nodes, ms) + [nodes[i]]
  {
    assert (ms + [i])[..|ms|] == ms;
  }

  lemma {:induction false} MembersGroup(nodes: seq<Node>, c: seq<nat>, r: nat, n: nat)
    requires |c| == |nodes| && n <= |nodes|
    ensures Gather(nodes, Members(c, r, n)) == Group(nodes, c, r, n)
  {
    if n > 0 {
      MembersGroup(nodes, c, r, n - 1);
      var ms := Members(c, r, n - 1);
      if c[n - 1] == r {
        GatherAppend(nodes, ms, n - 1);
        assert Members(c, r, n) == ms + [n - 1];
      } else {
        assert Members(c, r, n) == ms + [] == ms;
      }
    }
  }

  lemma FirstIsNew(c: seq<nat>, n: nat)
    requires n < |c|
    ensures IsFirst(c, n) <==> c[n] !in Roots(c, n)
  {
    RootsExact(c, n, c[n]);
  }

  /** The first record labelled `r`. */
  ghost function FirstOf(c: seq<nat>, r: nat, n: nat): (i: nat)
    requires n <= |c| && r in Roots(c, n)
    ensures i < n && c[i] == r
  {
    if r in Roots(c, n - 1) then FirstOf(c, r, n - 1) else n - 1
  }

  /** What the clusters `rs` export, given what the cluster of each label exports. */
  ghost function Exported(m: map<nat, Option<Entry>>, rs: seq<nat>): seq<Entry> {
    if rs == [] then []
    else
      var r := rs[|rs| - 1];
      Exported(m, rs[..|rs| - 1]) + (if r in m && m[r].Some? then [m[r].value] else [])
  }

  lemma ExportedStep(m: map<nat, Option<Entry>>, rs: seq<nat>, r: nat)
    ensures Exported(m, rs + [r]) == Exported(m, rs) + (if r in m && m[r].Some? then [m[r].value] else [])
  {
    assert (rs + [r])[..|rs|] == rs;
  }

  /** What the cluster of each label exports. */
  ghost predicate ByLabel(c: seq<nat>, v: View, m: map<nat, Option<Entry>>) {
    |c| == |v| && forall i :: 0 <= i < |c| ==> c[i] in m && m[c[i]] == v[i]
  }

  lemma EntriesAtStep(v: View, hs: seq<nat>, i: nat)
    requires forall k :: 0 <= k < |hs| ==> hs[k] < |v| && v[hs[k]].Some?
    requires i < |v| && v[i].Some?
    ensures EntriesAt(v, hs + [i]) == EntriesAt(v, hs) + [v[i].value]
  {
  }

  lemma RootsStep(c: seq<nat>, n: nat)
    requires n < |c|
    ensures Roots(c, n + 1) == Roots(c, n) + (if IsFirst(c, n) then [c[n]] else [])
  {
    FirstIsNew(c, n);
  }

  /** One more record, a first one or not, keeps labels and heads in step. */
  lemma HeadExported(v: View, m: map<nat, Option<Entry>>, rs: seq<nat>, hs: seq<nat>, r: nat, i: nat)
    requires forall k :: 0 <= k < |hs| ==> hs[k] < |v| && v[hs[k]].Some?
    requires i < |v| && r in m && m[r] == v[i] && Exported(m, rs) == EntriesAt(v, hs)
    ensures v[i].Some? ==> Exported(m, rs + [r]) == EntriesAt(v, hs + [i])
    ensures v[i].None? ==> Exported(m, rs + [r]) == EntriesAt(v, hs)
  {
    ExportedStep(m, rs, r);
    if v[i].Some? { EntriesAtStep(v, hs, i); }
  }

  /** Clusters in order of appearance export the entries of the heads. */
  lemma {:induction false} ExportedIsListed(c: seq<nat>, v: View, m: map<nat, Option<Entry>>, n: nat)
    requires ByLabel(c, v, m) && n <= |c|
    ensures Exported(m, Roots(c, n)) == EntriesAt(v, Heads(c, v, n))
  {
    if n > 0 {
      ExportedIsListed(c, v, m, n - 1);
      RootsStep(c, n - 1);
      var rs, hs := Roots(c, n - 1), Heads(c, v, n - 1);
      HeadExported(v, m, rs, hs, c[n - 1], n - 1);
      assert rs + [] == rs && hs + [] == hs;
    }
  }

  /** The `clusters` dictionary after the first `n` records. */
  ghost predicate ClustersTo(c: seq<nat>, order: seq<nat>, members: map<nat, seq<nat>>, n: nat)
    requires n <= |c|
  {
    && order == Roots(c, n)
    && (forall r :: r in members <==> r in order)
    && (forall r :: r in members ==> members[r] == Members(c, r, n))
  }

  lemma ClustersStep(c: seq<nat>, order: seq<nat>, members: map<nat, seq<nat>>, n: nat)
    requires n < |c| && ClustersTo(c, order, members, n)
    ensures var r := c[n];
      ClustersTo(c, if r in members then order else order + [r],
                 members[r := (if r in members then members[r] else []) + [n]], n + 1)
  {
    if c[n] !in members { NoMembers(c, c[n], n); }
    assert Roots(c, n + 1) == if c[n] in members then order else order + [c[n]];
    var next := members[c[n] := (if c[n] in members then members[c[n]] else []) + [n]];
    forall r | r in next ensures next[r] == Members(c, r, n + 1) {}
  }

  method ClusterMembers(nodes: seq<Node>, forest: Forest) returns (order: seq<nat>, members: map<nat, seq<nat>>)
    requires forest.Valid() && |forest.parent| == |nodes|
    modifies forest
    ensures forest.Valid() && |forest.parent| == |nodes| && forest.root == old(forest.root) && |forest.root| == |nodes|
    ensures ClustersTo(forest.root, order, members, |nodes|)
  {
    order, members := [], map[];
    for index := 0 to |nodes|
      invariant forest.Valid() && |forest.parent| == |nodes| && forest.root == old(forest.root)
      invariant ClustersTo(forest.root, order, members, index)
    {
      var r := forest.Find(index);
      ClustersStep(forest.root, order, members, index);
      order := if r in members then order else order + [r];
      members := members[r := (if r in members then members[r] else []) + [index]];
    }
  }

  lemma {:induction false} NoMembers(c: seq<nat>, r: nat, n: nat)
    requires n <= |c| && r !in Roots(c, n)
    ensures Members(c, r, n) == []
  {
    if n > 0 { NoMembers(c, r, n - 1); }
  }

  // ---------------------------------------------------------------- the configuration

  class ConfigFile {
    var host: string
    var primaryId: string
    var primaryAliases: seq<string>
    var devices: seq<Device>

    function Value(): Config
      reads this
    {
      Config(host, primaryId, primaryAliases, devices)
    }

    /** One slot takes over its cluster's id and aliases; `changed` says whether anything moved. */
    method AdoptEntry(slot: Slot, e: Entry) returns (changed: bool)
      requires TextList(e.aliases) == e.aliases
      modifies this
      ensures Value() == AdoptSlot(old(Value()), slot, e)
      ensures changed <==> Value() != old(Value())
    {
      changed := false;
      match slot {
        case NoSlot =>
        case PrimarySlot =>
          var currentAliases := TextList(primaryAliases);
          if primaryId != e.id { primaryId := e.id; changed := true; }
          if currentAliases != e.aliases { primaryAliases := e.aliases; changed := true; }
        case DeviceSlot(index) =>
          if index >= |devices| { return; }
          var currentAliases := TextList(devices[index].aliases);
          ghost var was := devices;
          if devices[index].id != e.id {
            devices := devices[index := devices[index].(id := e.id)];
            changed := true;
          }
          // An empty alias list written over a missing one reads the same, so the key's presence does not matter.
          if currentAliases != e.aliases {
            devices := devices[index := devices[index].(aliases := e.aliases)];
            changed := true;
          }
          assert devices == was[index := AdoptDevice(was[index], e)];
          if changed { assert devices[index] != was[index]; }
      }
    }

    /** The members of one cluster adopt its entry. */
    method WriteBack(nodes: seq<Node>, ms: seq<nat>, e: Entry, ghost cfg: Config, ghost v: View, ghost done: set<nat>)
      returns (changed: bool)
      requires |v| == |nodes| && OwnSlots(nodes) && Written(cfg, Value(), nodes, v, done)
      requires forall k :: 0 <= k < |ms| ==> ms[k] < |nodes| && ms[k] !in done && v[ms[k]] == Some(e)
      requires forall j, k :: 0 <= j < k < |ms| ==> ms[j] != ms[k]
      requires TextList(e.aliases) == e.aliases
      modifies this
      ensures Written(cfg, Value(), nodes, v, done + SetOf(ms))
      ensures changed || old(Value()) != cfg <==> Value() != cfg
    {
      changed := false;
      ghost var reached := done;
      for k := 0 to |ms|
        invariant reached == done + SetOf(ms[..k])
        invariant Written(cfg, Value(), nodes, v, reached)
        invariant changed || old(Value()) != cfg <==> Value() != cfg
      {
        assert ms[..k + 1] == ms[..k] + [ms[k]];
        WrittenStep(cfg, Value(), nodes, v, reached, ms[k]);
        var moved := AdoptEntry(nodes[ms[k]].slot, e);
        changed := changed || moved;
        reached := reached + {ms[k]};
      }
      assert ms[..|ms|] == ms;
    }
  }

  ghost function LabelSet(c: seq<nat>, r: nat): set<nat> {
    set i: nat | i < |c| && c[i] == r
  }

  /** `done` holds exactly the records labelled with one of `rs`. */
  ghost predicate Covers(c: seq<nat>, done: set<nat>, rs: seq<nat>) {
    forall i: nat :: i in done <==> i < |c| && c[i] in rs
  }

  lemma {:induction false} GroupClean(nodes: seq<Node>, c: seq<nat>, r: nat, n: nat)
    requires |c| == |nodes| && n <= |nodes| && CleanHosts(nodes)
    ensures CleanHosts(Group(nodes, c, r, n))
  {
    if n > 0 { GroupClean(nodes, c, r, n - 1); }
  }

  /** One cluster: exported when it has an id, and written back to this PC's slots in it. */
  method ShareCluster(config: ConfigFile, nodes: seq<Node>, ms: seq<nat>, ghost cfg: Config, ghost v: View,
          ghost e: Option<Entry>, ghost done: set<nat>)
    returns (shared: seq<Entry>, changed: bool)
    requires |v| == |nodes| && OwnSlots(nodes) && CleanHosts(Gather(nodes, ms)) && GroupView(Gather(nodes, ms)) == e
    requires forall k :: 0 <= k < |ms| ==> ms[k] < |nodes| && ms[k] !in done && v[ms[k]] == e
    requires forall j, k :: 0 <= j < k < |ms| ==> ms[j] != ms[k]
    requires Written(cfg, config.Value(), nodes, v, done)
    modifies config
    ensures Written(cfg, config.Value(), nodes, v, done + SetOf(ms))
    ensures shared == if e.Some? then [e.value] else []
    ensures changed || old(config.Value()) != cfg <==> config.Value() != cfg
  {
    var group := Gather(nodes, ms);
    if Ids(group) == [] {
      WrittenSkip(cfg, config.Value(), nodes, v, done, SetOf(ms));
      return [], false;
    }
    var entry := BuildEntry(group);
    EntryShape(group);
    SortedDistinct(entry.aliases);
    TextListFixpoint(entry.aliases);
    changed := config.WriteBack(nodes, ms, entry, cfg, v, done);
    shared := [entry];
  }

  lemma CoversStep(c: seq<nat>, done: set<nat>, rs: seq<nat>, r: nat)
    requires Covers(c, done, rs) && r !in rs
    ensures Covers(c, done + LabelSet(c, r), rs + [r])
    ensures forall i :: i in done ==> i < |c| && c[i] != r
  {
  }

  lemma MemberSet(c: seq<nat>, r: nat)
    ensures SetOf(Members(c, r, |c|)) == LabelSet(c, r)
  {
    MembersExact(c, r, |c|);
  }

  lemma AllCovered(c: seq<nat>, done: set<nat>)
    requires Covers(c, done, Roots(c, |c|))
    ensures done == UpTo(|c|)
  {
    forall i | 0 <= i < |c| ensures c[i] in Roots(c, |c|) { RootsExact(c, |c|, c[i]); }
  }

  /** What the loop over the clusters needs to know of cluster `r`. */
  ghost predicate ClusterReady(nodes: seq<Node>, c: seq<nat>, v: View, m: map<nat, Option<Entry>>, r: nat)
    requires |c| == |nodes| == |v|
  {
    var ms := Members(c, r, |nodes|);
    && r in m && CleanHosts(Gather(nodes, ms)) && GroupView(Gather(nodes, ms)) == m[r]
    && (forall k :: 0 <= k < |ms| ==> ms[k] < |nodes| && c[ms[k]] == r && v[ms[k]] == m[r])
    && (forall j, k :: 0 <= j < k < |ms| ==> ms[j] != ms[k])
  }

  lemma OneClusterReady(nodes: seq<Node>, c: seq<nat>, v: View, m: map<nat, Option<Entry>>, i: nat)
    requires Faithful(nodes, c, v) && PerCluster(c, v) && CleanHosts(nodes) && ByLabel(c, v, m) && i < |nodes|
    ensures ClusterReady(nodes, c, v, m, c[i])
  {
    MembersExact(c, c[i], |c|);
    MembersGroup(nodes, c, c[i], |c|);
    GroupClean(nodes, c, c[i], |c|);
    assert ViewAt(nodes, c, v, i);
  }

  lemma ClustersReady(nodes: seq<Node>, c: seq<nat>, v: View) returns (m: map<nat, Option<Entry>>)
    requires Faithful(nodes, c, v) && CleanHosts(nodes)
    ensures ByLabel(c, v, m) && forall r :: r in Roots(c, |c|) ==> ClusterReady(nodes, c, v, m, r)
  {
    FaithfulView(nodes, c, v);
    m := map r | r in Roots(c, |c|) :: v[FirstOf(c, r, |c|)];
    forall i | 0 <= i < |c| ensures c[i] in m && m[c[i]] == v[i] { RootsExact(c, |c|, c[i]); }
    forall r | r in Roots(c, |c|) ensures ClusterReady(nodes, c, v, m, r) {
      OneClusterReady(nodes, c, v, m, FirstOf(c, r, |c|));
    }
  }

  /** The cluster labelled `r`. */
  method ShareLabel(config: ConfigFile, nodes: seq<Node>, ms: seq<nat>,
                    ghost cfg: Config, ghost c: seq<nat>, ghost v: View, ghost m: map<nat, Option<Entry>>,
                        ghost r: nat, ghost done: set<nat>)
    returns (shared: seq<Entry>, changed: bool)
    requires |c| == |nodes| == |v| && OwnSlots(nodes) && ms == Members(c, r, |nodes|) && ClusterReady(nodes, c, v, m, r)
    requires Written(cfg, config.Value(), nodes, v, done) && forall i :: i in done ==> i < |c| && c[i] != r
    modifies config
    ensures Written(cfg, config.Value(), nodes, v, done + LabelSet(c, r))
    ensures r in m && shared == if m[r].Some? then [m[r].value] else []
    ensures changed || old(config.Value()) != cfg <==> config.Value() != cfg
  {
    MemberSet(c, r);
    shared, changed := ShareCluster(config, nodes, ms, cfg, v, m[r], done);
  }

  /** Where the write-back stands after the first `k` clusters: `now` is the configuration. */
  ghost predicate SharedTo(cfg: Config, now: Config, nodes: seq<Node>, c: seq<nat>, v: View,
          m: map<nat, Option<Entry>>, done: set<nat>, rs: seq<nat>, shared: seq<Entry>, changed: bool)
  {
    && |v| == |nodes| && shared == Exported(m, rs) && Covers(c, done, rs)
    && Written(cfg, now, nodes, v, done) && (changed <==> now != cfg)
  }

  lemma SharedStep(cfg: Config, now: Config, next: Config, nodes: seq<Node>, c: seq<nat>, v: View,
          m: map<nat, Option<Entry>>, done: set<nat>, rs: seq<nat>, r: nat, shared: seq<Entry>, more: seq<Entry>,
          changed: bool, moved: bool)
    requires SharedTo(cfg, now, nodes, c, v, m, done, rs, shared, changed) && r !in rs
    requires Written(cfg, next, nodes, v, done + LabelSet(c, r))
    requires r in m && more == if m[r].Some? then [m[r].value] else []
    requires moved || now != cfg <==> next != cfg
    ensures SharedTo(cfg, next, nodes, c, v, m, done + LabelSet(c, r), rs + [r], shared + more, changed || moved)
  {
    CoversStep(c, done, rs, r);
    ExportedStep(m, rs, r);
  }

  /** All clusters in order of first appearance. */
  method ShareClusters(config: ConfigFile, nodes: seq<Node>, order: seq<nat>, members: map<nat, seq<nat>>,
                       ghost c: seq<nat>, ghost v: View, ghost m: map<nat, Option<Entry>>)
    returns (shared: seq<Entry>, changed: bool, ghost done: set<nat>)
    requires |c| == |nodes| == |v| && OwnSlots(nodes)
    requires forall r :: r in order ==>
        r in members && members[r] == Members(c, r, |nodes|) && ClusterReady(nodes, c, v, m, r)
    requires forall i, j :: 0 <= i < j < |order| ==> order[i] != order[j]
    requires Written(config.Value(), config.Value(), nodes, v, {})
    modifies config
    ensures shared == Exported(m, order) && Covers(c, done, order)
    ensures Written(old(config.Value()), config.Value(), nodes, v, done)
    ensures changed <==> config.Value() != old(config.Value())
  {
    ghost var cfg := config.Value();
    shared, changed, done := [], false, {};
    for k := 0 to |order|
      invariant SharedTo(cfg, config.Value(), nodes, c, v, m, done, order[..k], shared, changed)
    {
      var r := order[k];
      assert r in order && r !in order[..k];
      CoversStep(c, done, order[..k], r);
      ghost var now := config.Value();
      var more, moved := ShareLabel(config, nodes, members[r], cfg, c, v, m, r, done);
      SharedStep(cfg, now, config.Value(), nodes, c, v, m, done, order[..k], r, shared, more, changed, moved);
      assert order[..k + 1] == order[..k] + [r];
      shared, changed, done := shared + more, changed || moved, done + LabelSet(c, r);
    }
    assert order[..|order|] == order;
  }

  /** The whole operation, in the program's order of work, is `Reconcile`; `changed` reports exactly
      whether the configuration moved. */
  method ReconcileConfigDevices(config: ConfigFile, remote: seq<Entry>) returns (exported: seq<Entry>, changed: bool)
    modifies config
    ensures (exported, config.Value()) == Reconcile(old(config.Value()), remote)
    ensures Explains(Records(old(config.Value()), remote), exported)
    ensures changed <==> config.Value() != old(config.Value())
  {
    ghost var cfg := config.Value();
    var nodes := Records(config.Value(), remote);
    RecordsOwnSlots(cfg, remote);
    var forest := LinkRecords(nodes);
    PrimaryPassCongruent(nodes, forest.root, Closure(nodes));
    JoinPrimaries(nodes, forest);
    var order, members := ClusterMembers(nodes, forest);
    ghost var c := forest.root;
    assert SamePartition(c, Clusters(nodes));
    ghost var v := EntriesPer(nodes, c);
    EntriesPerFaithful(nodes, c);
    ghost var m := ClustersReady(nodes, c, v);
    WrittenStart(cfg, nodes, v);
    RootsDistinct(c, |c|);
    ghost var done: set<nat>;
    exported, changed, done := ShareClusters(config, nodes, order, members, c, v, m);
    AllCovered(c, done);
    AdoptWritten(cfg, nodes, v, |nodes|);
    WrittenUnique(cfg, config.Value(), Adopt(cfg, nodes, v, |nodes|), nodes, v, UpTo(|nodes|));
    ExportedIsListed(c, v, m, |nodes|);
    EntriesPerCongruent(nodes, c, Clusters(nodes));
    HeadsCongruent(c, Clusters(nodes), v, |nodes|);
    assert exported == Listed(Clusters(nodes), v);
    exported := SortEntries(exported);
    ReconcileExplains(cfg, remote);
  }
}
