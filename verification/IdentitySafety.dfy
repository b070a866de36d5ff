/**
 Identity safety: reconciling the registry never forgets a key a reader was known by, so it
 never turns a delivered article into a pending one.
 */
module IdentitySafety {
  import opened Wrappers
  import opened History
  import opened UnionFind
  import opened DeviceRegistry
  import opened RegistryFixpoint
  import opened RegistryStable
  import opened RegistryWrite
  import opened Delivery
  import opened DeliveryProofs
  import opened DeliveryRuns

  ghost predicate GoodTarget(t: Target) {
    t.ip != "" && t.historyKey != "" && t.historyKey in TargetKeys(t)
  }

  lemma PrimaryTargetGood(cfg: Config)
    requires cfg.host != ""
    ensures GoodTarget(PrimaryTarget(cfg))
  {
    WithoutAbsent(PrimaryTarget(cfg).aliasKeys, "");
  }

  lemma DeviceTargetGood(d: Device)
    requires d.ip != ""
    ensures GoodTarget(DeviceTarget(d))
  {
    WithoutAbsent(DeviceTarget(d).aliasKeys, "");
  }

  ghost predicate AllGood(ts: seq<Target>) {
    DistinctIps(ts) && forall i :: 0 <= i < |ts| ==> GoodTarget(ts[i])
  }

  lemma GoodAppend(ts: seq<Target>, t: Target)
    requires AllGood(ts) && GoodTarget(t) && t.ip !in Ips(ts)
    ensures AllGood(ts + [t])
  {
  }

  lemma {:induction false} TargetsToGood(cfg: Config, n: nat)
    requires n <= |cfg.devices|
    ensures AllGood(TargetsTo(cfg, n))
  {
    if n == 0 {
      if cfg.host != "" { PrimaryTargetGood(cfg); }
    } else {
      TargetsToGood(cfg, n - 1);
      var ts, d := TargetsTo(cfg, n - 1), cfg.devices[n - 1];
      if d.ip != "" && d.ip !in Ips(ts) {
        DeviceTargetGood(d);
        GoodAppend(ts, DeviceTarget(d));
      }
    }
  }

  lemma GoodIsGood(ts: seq<Target>)
    requires AllGood(ts)
    ensures GoodTargets(ts)
  {
    forall i | 0 <= i < |ts| ensures ts[i].ip != "" && ts[i].historyKey != "" && ts[i].historyKey in TargetKeys(ts[i]) {
      assert GoodTarget(ts[i]);
    }
  }

  /** The target list always has distinct addresses, and every target looks its own record key up. */
  lemma TargetsGood(cfg: Config)
    ensures GoodTargets(TargetsOf(cfg))
  {
    TargetsToGood(cfg, |cfg.devices|);
    GoodIsGood(TargetsOf(cfg));
  }

  lemma SlotRecord(cfg: Config, remote: seq<Entry>, i: nat)
    requires i < |Records(cfg, remote)|
    ensures Records(cfg, remote)[i].slot == PrimarySlot ==> Records(cfg, remote)[i] == PrimaryRecord(cfg)
    ensures var s := Records(cfg, remote)[i].slot;
      s.DeviceSlot? ==>
        s.index < |cfg.devices| && Records(cfg, remote)[i] == DeviceRecord(cfg.devices[s.index], s.index)
  {
    RemoteNotLocal(remote);
    var p := if cfg.host == "" then 0 else 1;
    if p <= i < |LocalRecords(cfg)| { DeviceRecordsShape(cfg.devices, i - p); }
  }

  /** The entry of a record's cluster names everything the record was known by. */
  lemma EntryNamesRecord(nodes: seq<Node>, c: seq<nat>, i: nat, x: string)
    requires |c| == |nodes| && i < |nodes| && Ids(ClusterOf(nodes, c, i)) != [] && x != "" && x in Identities(nodes[i])
    ensures x == GroupEntry(ClusterOf(nodes, c, i)).id || x in GroupEntry(ClusterOf(nodes, c, i)).aliases
  {
    GroupIdentity(nodes, c, c[i], |nodes|, x);
    AliasesShape(ClusterOf(nodes, c, i));
  }

  /** No non-blank id or alias of a reader is lost. */
  ghost predicate KeepsNames(id: string, aliases: seq<string>, newId: string, newAliases: seq<string>) {
    forall x :: x != "" && x in [id] + aliases ==> x in [newId] + newAliases
  }

  lemma ReconcileWritten(cfg: Config, remote: seq<Entry>)
    ensures var nodes := Records(cfg, remote);
      Written(cfg, Reconcile(cfg, remote).1, nodes, EntriesPer(nodes, Clusters(nodes)), UpTo(|nodes|))
  {
    RecordsOwnSlots(cfg, remote);
    var nodes := Records(cfg, remote);
    AdoptWritten(cfg, nodes, EntriesPer(nodes, Clusters(nodes)), |nodes|);
  }

  lemma AdoptedKeepsNames(id: string, aliases: seq<string>, nodes: seq<Node>, c: seq<nat>, i: nat)
    requires |c| == |nodes| && i < |nodes| && Ids(ClusterOf(nodes, c, i)) != []
    requires nodes[i].id == id && nodes[i].aliases == TextList(aliases)
    ensures var e := GroupEntry(ClusterOf(nodes, c, i));
      KeepsNames(id, aliases, e.id, if TextList(aliases) != e.aliases then e.aliases else aliases)
  {
    var e := GroupEntry(ClusterOf(nodes, c, i));
    forall x | x != "" && x in [id] + aliases
      ensures x in [e.id] + (if TextList(aliases) != e.aliases then e.aliases else aliases)
    {
      assert x == id || x in TextList(aliases);
      EntryNamesRecord(nodes, c, i, x);
    }
  }

  lemma DeviceKeepsNames(cfg: Config, remote: seq<Entry>, c: seq<nat>, next: Config, j: nat)
    requires var nodes := Records(cfg, remote);
      |c| == |nodes| && Written(cfg, next, nodes, EntriesPer(nodes, c), UpTo(|nodes|)) && j < |cfg.devices|
    ensures |next.devices| == |cfg.devices|
    ensures next.devices[j].ip == cfg.devices[j].ip && next.devices[j].name == cfg.devices[j].name
    ensures KeepsNames(cfg.devices[j].id, cfg.devices[j].aliases, next.devices[j].id, next.devices[j].aliases)
  {
    var nodes := Records(cfg, remote);
    if HasSlot(nodes, DeviceSlot(j)) {
      var i :| 0 <= i < |nodes| && nodes[i].slot == DeviceSlot(j);
      SlotRecord(cfg, remote, i);
      assert SlotWritten(cfg, next, nodes, EntriesPer(nodes, c), UpTo(|nodes|), i);
      if Ids(ClusterOf(nodes, c, i)) != [] {
        AdoptedKeepsNames(cfg.devices[j].id, cfg.devices[j].aliases, nodes, c, i);
      }
    }
  }

  lemma PrimaryKeepsNames(cfg: Config, remote: seq<Entry>, c: seq<nat>, next: Config)
    requires var nodes := Records(cfg, remote);
      |c| == |nodes| && Written(cfg, next, nodes, EntriesPer(nodes, c), UpTo(|nodes|)) && cfg.host != ""
    ensures KeepsNames(cfg.primaryId, cfg.primaryAliases, next.primaryId, next.primaryAliases)
  {
    var nodes := Records(cfg, remote);
    assert nodes[0] == PrimaryRecord(cfg);
    assert SlotWritten(cfg, next, nodes, EntriesPer(nodes, c), UpTo(|nodes|), 0);
    if Ids(ClusterOf(nodes, c, 0)) != [] { AdoptedKeepsNames(cfg.primaryId, cfg.primaryAliases, nodes, c, 0); }
  }

  /** After the write-back every reader of this PC is known by all it was known by before, at the same address. */
  lemma ReconcileKeepsNames(cfg: Config, remote: seq<Entry>)
    ensures var next := Reconcile(cfg, remote).1;
      && next.host == cfg.host && |next.devices| == |cfg.devices|
      && (cfg.host != "" ==> KeepsNames(cfg.primaryId, cfg.primaryAliases, next.primaryId, next.primaryAliases))
      && forall j :: 0 <= j < |cfg.devices| ==>
           && next.devices[j].ip == cfg.devices[j].ip && next.devices[j].name == cfg.devices[j].name
           && KeepsNames(cfg.devices[j].id, cfg.devices[j].aliases, next.devices[j].id, next.devices[j].aliases)
  {
    ReconcileWritten(cfg, remote);
    var c, next := Clusters(Records(cfg, remote)), Reconcile(cfg, remote).1;
    forall j | 0 <= j < |cfg.devices|
      ensures next.devices[j].ip == cfg.devices[j].ip && next.devices[j].name == cfg.devices[j].name
      ensures KeepsNames(cfg.devices[j].id, cfg.devices[j].aliases, next.devices[j].id, next.devices[j].aliases)
    {
      DeviceKeepsNames(cfg, remote, c, next, j);
    }
    if cfg.host != "" { PrimaryKeepsNames(cfg, remote, c, next); }
  }

  /** The same addresses in the same order, each with at least the keys it had. */
  ghost predicate MoreKeys(ts: seq<Target>, us: seq<Target>) {
    && |ts| == |us|
    && forall i :: 0 <= i < |ts| ==> ts[i].ip == us[i].ip && forall k :: k in TargetKeys(ts[i]) ==>
        k in TargetKeys(us[i])
  }

  lemma MoreNamesMoreKeys(d: Device, e: Device)
    requires d.ip == e.ip && KeepsNames(d.id, d.aliases, e.id, e.aliases)
    ensures forall k :: k in TargetKeys(DeviceTarget(d)) ==> k in TargetKeys(DeviceTarget(e))
  {
    forall k | k in TargetKeys(DeviceTarget(d)) ensures k in TargetKeys(DeviceTarget(e)) {
      if k in [d.id] + d.aliases { assert k in [e.id] + e.aliases; }
    }
  }

  lemma PrimaryMoreKeys(cfg: Config, next: Config)
    requires next.host == cfg.host && KeepsNames(cfg.primaryId, cfg.primaryAliases, next.primaryId, next.primaryAliases)
    ensures forall k :: k in TargetKeys(PrimaryTarget(cfg)) ==> k in TargetKeys(PrimaryTarget(next))
  {
    forall k | k in TargetKeys(PrimaryTarget(cfg)) ensures k in TargetKeys(PrimaryTarget(next)) {
      if k in [cfg.primaryId] + cfg.primaryAliases { assert k in [next.primaryId] + next.primaryAliases; }
    }
  }

  lemma SameIps(ts: seq<Target>, us: seq<Target>)
    requires MoreKeys(ts, us)
    ensures Ips(ts) == Ips(us)
  {
    forall x ensures x in Ips(ts) <==> x in Ips(us) {
      if x in Ips(ts) { var i :| 0 <= i < |ts| && ts[i].ip == x; assert us[i].ip == x; }
      if x in Ips(us) { var i :| 0 <= i < |us| && us[i].ip == x; assert ts[i].ip == x; }
    }
  }

  lemma MoreKeysAppend(ts: seq<Target>, us: seq<Target>, t: Target, u: Target)
    requires MoreKeys(ts, us) && t.ip == u.ip && forall k :: k in TargetKeys(t) ==> k in TargetKeys(u)
    ensures MoreKeys(ts + [t], us + [u])
  {
  }

  lemma {:induction false} TargetsKeepKeys(cfg: Config, next: Config, n: nat)
    requires n <= |cfg.devices| == |next.devices| && next.host == cfg.host
    requires cfg.host != "" ==> KeepsNames(cfg.primaryId, cfg.primaryAliases, next.primaryId, next.primaryAliases)
    requires forall j :: 0 <= j < |cfg.devices| ==>
      next.devices[j].ip == cfg.devices[j].ip &&
          KeepsNames(cfg.devices[j].id, cfg.devices[j].aliases, next.devices[j].id, next.devices[j].aliases)
    ensures MoreKeys(TargetsTo(cfg, n), TargetsTo(next, n))
  {
    if n == 0 {
      if cfg.host != "" { PrimaryMoreKeys(cfg, next); }
    } else {
      TargetsKeepKeys(cfg, next, n - 1);
      var ts, us := TargetsTo(cfg, n - 1), TargetsTo(next, n - 1);
      var d, e := cfg.devices[n - 1], next.devices[n - 1];
      SameIps(ts, us);
      if d.ip != "" && d.ip !in Ips(ts) {
        MoreNamesMoreKeys(d, e);
        MoreKeysAppend(ts, us, DeviceTarget(d), DeviceTarget(e));
      }
    }
  }

  /** Identity safety, whatever the shared file holds: an article the history counts as delivered before
      reconciling is still counted as delivered after it. */
  lemma ReconcileNeverNeedsMore(cfg: Config, remote: seq<Entry>, live: map<Key, Row>, url: string, mode: Mode)
    requires !Needs(live, url, AliasGroups(TargetsOf(cfg)), mode)
    ensures !Needs(live, url, AliasGroups(TargetsOf(Reconcile(cfg, remote).1)), mode)
  {
    var next := Reconcile(cfg, remote).1;
    ReconcileKeepsNames(cfg, remote);
    TargetsKeepKeys(cfg, next, |cfg.devices|);
    MoreKeysNeverNeedMore(live, url, AliasGroups(TargetsOf(cfg)), AliasGroups(TargetsOf(next)), mode);
  }
}
