/**
 What a reconciliation writes back into the configuration, slot by slot.
 */
module RegistryAdopt {
  import opened Wrappers
  import opened Ordering
  import opened DeviceRegistry
  import opened RegistryFixpoint
  import opened RegistryExport
  import opened RegistryRecords
  import opened RegistryWrite
  import opened IdentitySafety

  /** The list as it stands says the same as `names`: its names in order of first appearance are those. */
  ghost predicate SameNames(list: seq<string>, names: seq<string>) {
    FirstOccurrences(list, names, |list|)
  }

  /** The aliases are left as they are written when they say the same already, and replaced otherwise. */
  ghost predicate Adopted(id: string, aliases: seq<string>, newId: string, newAliases: seq<string>, e: Entry) {
    newId == e.id && newAliases == if SameNames(aliases, e.aliases) then aliases else e.aliases
  }

  lemma SameNamesIff(list: seq<string>, names: seq<string>)
    ensures SameNames(list, names) <==> TextList(list) == names
  {
    FirstsInOrder(list);
    if SameNames(list, names) {
      if |names| <= |TextList(list)| {
        FirstsDetermined(list, names, TextList(list), |list|);
      } else {
        FirstsDetermined(list, TextList(list), names, |list|);
      }
    }
  }

  /** Some exported entry describes the cluster of record `i`, and the slot has adopted it; a cluster without an id
      leaves the slot as it was. */
  ghost predicate SlotAdopts(nodes: seq<Node>, c: seq<nat>, es: seq<Entry>, i: nat, id: string, aliases: seq<string>,
          newId: string, newAliases: seq<string>)
    requires |c| == |nodes| && i < |nodes|
  {
    if HasId(nodes, c, c[i]) then
      exists e :: e in es && Describes(nodes, c, c[i], e) && Adopted(id, aliases, newId, newAliases, e)
    else newId == id && newAliases == aliases
  }

  lemma ViewHolds(cfg: Config, remote: seq<Entry>, i: nat)
    requires i < |Records(cfg, remote)|
    ensures var nodes := Records(cfg, remote);
      var c := Clusters(nodes);
      var v := EntriesPer(nodes, c)[i];
      && (v.Some? <==> HasId(nodes, c, c[i]))
      && (v.Some? ==> v.value in Reconcile(cfg, remote).0 && Describes(nodes, c, c[i], v.value))
  {
    var nodes := Records(cfg, remote);
    var c := Clusters(nodes);
    var v := EntriesPer(nodes, c);
    HasIdIff(nodes, c, c[i]);
    if v[i].Some? {
      EntriesPerFaithful(nodes, c);
      FaithfulView(nodes, c, v);
      EntriesDistinct(nodes, v);
      SortEntriesSorted(Listed(c, v));
      EntryMembers(c, v, v[i].value);
      EntryDescribes(nodes, c, c[i]);
    }
  }

  lemma AdoptsView(cfg: Config, remote: seq<Entry>, i: nat, id: string, aliases: seq<string>, newId: string,
          newAliases: seq<string>)
    requires i < |Records(cfg, remote)|
    requires var v := EntriesPer(Records(cfg, remote), Clusters(Records(cfg, remote)))[i];
      if v.Some? then
        newId == v.value.id && newAliases == if TextList(aliases) != v.value.aliases then v.value.aliases else aliases
      else newId == id && newAliases == aliases
    ensures var nodes := Records(cfg, remote);
      SlotAdopts(nodes, Clusters(nodes), Reconcile(cfg, remote).0, i, id, aliases, newId, newAliases)
  {
    var v := EntriesPer(Records(cfg, remote), Clusters(Records(cfg, remote)))[i];
    ViewHolds(cfg, remote, i);
    if v.Some? { SameNamesIff(aliases, v.value.aliases); }
  }

  /** Every extra reader with an address has a record; after the reconciliation it carries the id and the aliases of the
      exported entry that describes the record's cluster, and nothing else about it has changed.  A reader without an
      address is left alone. */
  lemma DeviceAdopts(cfg: Config, remote: seq<Entry>, j: nat) returns (i: nat)
    requires j < |cfg.devices|
    ensures var nodes, next := Records(cfg, remote), Reconcile(cfg, remote).1;
      && |next.devices| == |cfg.devices| && var was, now := cfg.devices[j], next.devices[j];
      if cfg.devices[j].ip == "" then now == was
      else
        && now.ip == was.ip && now.name == was.name && i < |nodes| && nodes[i].slot == DeviceSlot(j)
        && SlotAdopts(nodes, Clusters(nodes), Reconcile(cfg, remote).0, i, was.id, was.aliases, now.id, now.aliases)
  {
    var nodes, next := Records(cfg, remote), Reconcile(cfg, remote).1;
    var v := EntriesPer(nodes, Clusters(nodes));
    ReconcileWritten(cfg, remote);
    i := 0;
    if HasSlot(nodes, DeviceSlot(j)) {
      i :| 0 <= i < |nodes| && nodes[i].slot == DeviceSlot(j);
      SlotRecord(cfg, remote, i);
      assert SlotWritten(cfg, next, nodes, v, UpTo(|nodes|), i);
    }
    DeviceHasRecord(cfg, remote, j);
    if cfg.devices[j].ip != "" {
      var was, now := cfg.devices[j], next.devices[j];
      AdoptsView(cfg, remote, i, was.id, was.aliases, now.id, now.aliases);
    }
  }

  lemma RecordOfDevice(cfg: Config, remote: seq<Entry>, j: nat)
    requires j < |cfg.devices| && cfg.devices[j].ip != ""
    ensures HasSlot(Records(cfg, remote), DeviceSlot(j))
  {
    var ps, ds, rs, os, qs := RecordsAre(cfg, remote);
    var a :| 0 <= a < |ds| && ds[a] == j;
    assert OfDevice(cfg, ds[a], rs[a]);
    assert Records(cfg, remote)[|ps| + a] == rs[a];
  }

  lemma DeviceHasRecord(cfg: Config, remote: seq<Entry>, j: nat)
    requires j < |cfg.devices|
    ensures HasSlot(Records(cfg, remote), DeviceSlot(j)) <==> cfg.devices[j].ip != ""
  {
    var nodes := Records(cfg, remote);
    if cfg.devices[j].ip != "" { RecordOfDevice(cfg, remote, j); }
    if i :| 0 <= i < |nodes| && nodes[i].slot == DeviceSlot(j) {
      SlotRecord(cfg, remote, i);
      RecordsOwnSlots(cfg, remote);
      assert nodes[i].hosts == [cfg.devices[j].ip] && "" !in nodes[i].hosts;
    }
  }

  /** The same for the primary reader. */
  lemma PrimaryAdopts(cfg: Config, remote: seq<Entry>)
    ensures var nodes, next := Records(cfg, remote), Reconcile(cfg, remote).1;
      && next.host == cfg.host
      && if cfg.host == "" then next.primaryId == cfg.primaryId && next.primaryAliases == cfg.primaryAliases
         else
           && |nodes| > 0 && nodes[0].slot == PrimarySlot
           && SlotAdopts(nodes, Clusters(nodes), Reconcile(cfg, remote).0, 0, cfg.primaryId, cfg.primaryAliases,
                         next.primaryId, next.primaryAliases)
  {
    var nodes, next := Records(cfg, remote), Reconcile(cfg, remote).1;
    var v := EntriesPer(nodes, Clusters(nodes));
    ReconcileWritten(cfg, remote);
    if cfg.host == "" {
      NoPrimaryRecord(cfg, remote);
    } else {
      assert nodes[0] == PrimaryRecord(cfg);
      assert SlotWritten(cfg, next, nodes, v, UpTo(|nodes|), 0);
      AdoptsView(cfg, remote, 0, cfg.primaryId, cfg.primaryAliases, next.primaryId, next.primaryAliases);
    }
  }

  lemma NoPrimaryRecord(cfg: Config, remote: seq<Entry>)
    requires cfg.host == ""
    ensures !HasSlot(Records(cfg, remote), PrimarySlot)
  {
    var ps, ds, rs, os, qs := RecordsAre(cfg, remote);
    var nodes := Records(cfg, remote);
    forall i | 0 <= i < |nodes| ensures nodes[i].slot != PrimarySlot {
      if i < |rs| {
        assert nodes[i] == rs[i] && OfDevice(cfg, ds[i], rs[i]);
      } else {
        assert nodes[i] == qs[i - |rs|] && OfEntry(remote[os[i - |rs|]], qs[i - |rs|]);
      }
    }
  }
}
