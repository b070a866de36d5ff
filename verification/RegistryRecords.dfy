/**
 The records a reconciliation starts from: which reader or entry each describes, and what it says about it.
 */
module RegistryRecords {
  import opened Ordering
  import opened DeviceRegistry
  import opened RegistryExport

  /** `r` is the primary reader's record. */
  ghost predicate OfPrimary(cfg: Config, r: Node) {
    && r.id == cfg.primaryId && r.hosts == [cfg.host] && r.name == "" && r.slot == PrimarySlot && r.primary
    && FirstOccurrences(cfg.primaryAliases, r.aliases, |cfg.primaryAliases|)
  }

  /** `r` is the record of extra reader `j`. */
  ghost predicate OfDevice(cfg: Config, j: nat, r: Node) {
    && j < |cfg.devices| && var d := cfg.devices[j];
    && r.id == d.id && r.hosts == [d.ip] && r.name == d.name && r.slot == DeviceSlot(j) && !r.primary
    && FirstOccurrences(d.aliases, r.aliases, |d.aliases|)
  }

  /** `r` is the record of an entry of the shared file, whose older one-host field counts as its last host; its own id
      is not among its aliases. */
  ghost predicate OfEntry(e: Entry, r: Node) {
    && r.id == e.id && r.name == e.name && r.slot == NoSlot && r.primary == e.primary
    && FirstOccurrences(e.hosts + [e.single], r.hosts, MAX_HOSTS)
    && InOrderOf(e.aliases, r.aliases) && forall x :: x in r.aliases <==> x in e.aliases && x != "" && x != e.id
  }

  /** An entry counts when it has an id or a host. */
  ghost predicate Counts(e: Entry) {
    e.id != "" || e.single != "" || exists h :: h in e.hosts && h != ""
  }

  // ---------------------------------------------------------------- one record

  lemma FirstsInOrder(xs: seq<string>)
    ensures FirstOccurrences(xs, TextList(xs), |xs|) && InOrderOf(xs, TextList(xs))
  {
    TextListInOrder(xs);
  }

  lemma InOrderAppend(xs: seq<string>, w: seq<string>, y: string)
    requires InOrderOf(xs, w) && y in xs && forall k :: 0 <= k < |w| ==> Position(xs, w[k]) < Position(xs, y)
    ensures InOrderOf(xs, w + [y])
  {
  }

  lemma {:induction false} WithoutInOrder(xs: seq<string>, r: seq<string>, x: string)
    requires InOrderOf(xs, r)
    ensures InOrderOf(xs, Without(r, x))
  {
    if r != [] {
      var init, y := r[..|r| - 1], r[|r| - 1];
      WithoutInOrder(xs, init, x);
      var w := Without(init, x);
      assert y in xs;
      forall k | 0 <= k < |w| ensures w[k] in xs && Position(xs, w[k]) < Position(xs, y) {
        assert w[k] in init;
        var j :| 0 <= j < |init| && init[j] == w[k];
        assert Position(xs, r[j]) < Position(xs, r[|r| - 1]);
      }
      InOrderAppend(xs, w, y);
    }
  }

  lemma CountsIff(e: Entry)
    ensures Usable(e) <==> Counts(e)
  {
    var all, xs := TextList(e.hosts + [e.single]), e.hosts + [e.single];
    assert forall h :: h in xs <==> h in e.hosts || h == e.single;
    if all != [] { assert all[0] in all; }
    if all == [] { assert forall h :: h in xs ==> h == "" || h in all; }
  }

  lemma EntryRecord(e: Entry)
    ensures OfEntry(e, RemoteRecord(e))
  {
    TakeFirsts(e.hosts + [e.single], MAX_HOSTS);
    FirstsInOrder(e.aliases);
    WithoutInOrder(e.aliases, TextList(e.aliases), e.id);
  }

  lemma DeviceRecordIs(cfg: Config, j: nat)
    requires j < |cfg.devices|
    ensures OfDevice(cfg, j, DeviceRecord(cfg.devices[j], j))
  {
    FirstsInOrder(cfg.devices[j].aliases);
  }

  // ---------------------------------------------------------------- all records

  /** The records `rs` are those of the extra readers at the places `os`. */
  ghost predicate DevicesAt(cfg: Config, os: seq<nat>, rs: seq<Node>) {
    Rising(os) && |rs| == |os| && forall a :: 0 <= a < |os| ==> OfDevice(cfg, os[a], rs[a])
  }

  /** The records `rs` are those of the entries at the places `os`. */
  ghost predicate EntriesAre(es: seq<Entry>, os: seq<nat>, rs: seq<Node>) {
    Rising(os) && |rs| == |os| && forall a :: 0 <= a < |os| ==> os[a] < |es| && OfEntry(es[os[a]], rs[a])
  }

  lemma {:induction false} DeviceRecordsAre(cfg: Config, n: nat) returns (os: seq<nat>)
    requires n <= |cfg.devices|
    ensures DevicesAt(cfg, os, DeviceRecords(cfg.devices[..n]))
    ensures forall i: nat :: i in os <==> i < n && cfg.devices[i].ip != ""
  {
    os := [];
    if n > 0 {
      os := DeviceRecordsAre(cfg, n - 1);
      assert cfg.devices[..n][..n - 1] == cfg.devices[..n - 1];
      if cfg.devices[n - 1].ip != "" {
        DeviceRecordIs(cfg, n - 1);
        os := os + [n - 1];
      }
    }
  }

  lemma EntriesNext(es: seq<Entry>, os: seq<nat>, rs: seq<Node>, e: Entry, r: Node)
    requires EntriesAre(es, os, rs) && OfEntry(e, r)
    ensures EntriesAre(es + [e], os, rs) && EntriesAre(es + [e], os + [|es|], rs + [r])
  {
    forall a | 0 <= a < |os| + 1
      ensures (os + [|es|])[a] < |es + [e]| && OfEntry((es + [e])[(os + [|es|])[a]], (rs + [r])[a])
    {
      if a < |os| { assert OfEntry(es[os[a]], rs[a]); }
    }
  }

  lemma RemoteNext(es: seq<Entry>, e: Entry, os: seq<nat>) returns (more: seq<nat>)
    requires EntriesAre(es, os, RemoteRecords(es))
    ensures EntriesAre(es + [e], more, RemoteRecords(es + [e])) && more == if Counts(e) then os + [|es|] else os
  {
    var r := RemoteRecord(e);
    EntryRecord(e);
    CountsIff(e);
    EntriesNext(es, os, RemoteRecords(es), e, r);
    assert (es + [e])[..|es|] == es;
    more := if Counts(e) then os + [|es|] else os;
  }

  lemma {:induction false} RemoteRecordsAre(es: seq<Entry>) returns (os: seq<nat>)
    ensures EntriesAre(es, os, RemoteRecords(es)) && forall i: nat :: i in os <==> i < |es| && Counts(es[i])
  {
    os := [];
    if es != [] {
      os := RemoteRecordsAre(es[..|es| - 1]);
      assert es[..|es| - 1] + [es[|es| - 1]] == es;
      os := RemoteNext(es[..|es| - 1], es[|es| - 1], os);
    }
  }

  /** The records, in order: the primary reader's if it has a host, one for every extra reader with an address, and one
      for every entry of the shared file that counts.  `ds` and `os` are the places of readers and entries. */
  lemma RecordsAre(cfg: Config, remote: seq<Entry>)
    returns (ps: seq<Node>, ds: seq<nat>, rs: seq<Node>, os: seq<nat>, qs: seq<Node>)
    ensures Records(cfg, remote) == ps + rs + qs
    ensures if cfg.host == "" then ps == [] else |ps| == 1 && OfPrimary(cfg, ps[0])
    ensures DevicesAt(cfg, ds, rs) && forall i: nat :: i in ds <==> i < |cfg.devices| && cfg.devices[i].ip != ""
    ensures EntriesAre(remote, os, qs) && forall i: nat :: i in os <==> i < |remote| && Counts(remote[i])
  {
    ds := DeviceRecordsAre(cfg, |cfg.devices|);
    assert cfg.devices[..|cfg.devices|] == cfg.devices;
    os := RemoteRecordsAre(remote);
    ps := if cfg.host == "" then [] else [PrimaryRecord(cfg)];
    rs, qs := DeviceRecords(cfg.devices), RemoteRecords(remote);
    FirstsInOrder(cfg.primaryAliases);
  }
}
