/**
 The configuration file: saves that compare the revision they started from, read-modify-write
 updates, and the GUI's merge-and-retry on conflict.
 */
module ConfigStore {
  import opened Wrappers
  import opened Lww
  import opened Sites
  import opened SiteProofs
  import opened DeviceRegistry
  import opened IdentitySafety

  type Fields = map<string, Json>

  /** config.json by the parts a conflict merge treats differently; `rest` is every other top-level key. */
  datatype Cfg = Cfg(revision: nat, watch: Option<Fields>, primaryId: string, primaryAliases: seq<string>,
                     devices: Option<seq<Device>>, sites: seq<Site>, deleted: seq<SiteTomb>, portable: Fields,
                     rest: Fields)

  /** Written by the Watch toggle and worker, never by the settings form. */
  const WATCH_KEYS := {"enabled", "pending_files", "pending_jobs"}

  /** Shared-folder settings the form edits; push and sync stamps are not among them. */
  const USER_KEYS := {"enabled", "folder", "include_history", "auto_export", "auto_import_on_start", "history_mode"}

  const MAX_CONFLICT_RETRIES := 3

  // ---------------------------------------------------------------- merging on conflict

  /** `_union_ids`: in order, without blanks, repetitions and `exclude`. */
  function UnionIds(groups: seq<string>, exclude: string): seq<string> {
    Without(TextList(groups), exclude)
  }

  function AllOf(groups: seq<seq<string>>): seq<string> {
    if groups == [] then [] else AllOf(groups[..|groups| - 1]) + groups[|groups| - 1]
  }

  lemma UnionNext(xs: seq<string>, x: string, exclude: string)
    ensures UnionIds(xs + [x], exclude) ==
      if x != "" && x != exclude && x !in UnionIds(xs, exclude) then UnionIds(xs, exclude) + [x]
      else UnionIds(xs, exclude)
  {
    assert (xs + [x])[..|xs|] == xs;
    var r := TextList(xs);
    assert (r + [x])[..|r|] == r;
  }

  lemma {:induction false} AllOfMember(groups: seq<seq<string>>, x: string)
    ensures x in AllOf(groups) <==> exists g :: 0 <= g < |groups| && x in groups[g]
  {
    if groups != [] { AllOfMember(groups[..|groups| - 1], x); }
  }

  lemma {:induction false} UnionDistinct(xs: seq<string>, exclude: string)
    ensures forall i, j :: 0 <= i < j < |UnionIds(xs, exclude)| ==>
      UnionIds(xs, exclude)[i] != UnionIds(xs, exclude)[j]
  {
    if xs != [] {
      UnionDistinct(xs[..|xs| - 1], exclude);
      UnionNext(xs[..|xs| - 1], xs[|xs| - 1], exclude);
      assert xs[..|xs| - 1] + [xs[|xs| - 1]] == xs;
    }
  }

  method UnionIdsLoop(groups: seq<seq<string>>, exclude: string) returns (ids: seq<string>)
    ensures ids == UnionIds(AllOf(groups), exclude)
    ensures forall x :: x in ids <==> x != "" && x != exclude && exists g :: 0 <= g < |groups| && x in groups[g]
    ensures forall i, j :: 0 <= i < j < |ids| ==> ids[i] != ids[j]
  {
    ids := [];
    for g := 0 to |groups|
      invariant ids == UnionIds(AllOf(groups[..g]), exclude)
    {
      var group := groups[g];
      ghost var done := AllOf(groups[..g]);
      assert done + group[..0] == done;
      for k := 0 to |group|
        invariant ids == UnionIds(done + group[..k], exclude)
      {
        assert done + group[..k + 1] == done + group[..k] + [group[k]];
        UnionNext(done + group[..k], group[k], exclude);
        if group[k] != "" && group[k] != exclude && group[k] !in ids { ids := ids + [group[k]]; }
      }
      assert group[..|group|] == group && groups[..g + 1][..g] == groups[..g];
    }
    assert groups[..|groups|] == groups;
    forall x ensures x in AllOf(groups) <==> exists g :: 0 <= g < |groups| && x in groups[g] { AllOfMember(groups, x); }
    UnionDistinct(AllOf(groups), exclude);
  }

  predicate Matches(d: Device, id: string) {
    id != "" && (d.id == id || id in d.aliases)
  }

  /** The first device on disk that goes by `id`. */
  function MatchIn(disk: seq<Device>, id: string): (m: Option<Device>)
    ensures m.Some? ==> m.value in disk && Matches(m.value, id)
    ensures m.None? ==> forall d :: d in disk ==> !Matches(d, id)
  {
    if disk == [] then None else if Matches(disk[0], id) then Some(disk[0]) else MatchIn(disk[1..], id)
  }

  function MergedDevice(disk: seq<Device>, mem: Device): Device {
    var m := MatchIn(disk, mem.id);
    if m.None? then mem
    else
      var id := if m.value.id != "" then m.value.id else mem.id;
      mem.(id := id, aliases := UnionIds(m.value.aliases + mem.aliases + [mem.id], id))
  }

  function MergeDevices(disk: seq<Device>, mem: seq<Device>): (r: seq<Device>)
    ensures |r| == |mem| && forall i :: 0 <= i < |mem| ==> r[i] == MergedDevice(disk, mem[i])
  {
    seq(|mem|, i requires 0 <= i < |mem| => MergedDevice(disk, mem[i]))
  }

  function MergeWatch(disk: Option<Fields>, mem: Option<Fields>): Option<Fields> {
    if mem.None? then disk
    else
      var d := if disk.None? then map[] else disk.value;
      Some(mem.value + map k | k in d && k in WATCH_KEYS :: d[k])
  }

  /** Sites of both sides by url, then the deletions of both sides. */
  function MergeSiteLists(base: Json, disk: Cfg, mem: Cfg): Local {
    ApplyTombs(MergeSites(base, disk.sites, mem.sites, true), MergeTombs(disk.deleted + mem.deleted))
  }

  /** `_merge_config_on_conflict`, and the retry's adoption of the disk's revision. */
  function MergeOnConflict(base: Json, disk: Cfg, mem: Cfg): Cfg {
    var id := if disk.primaryId != "" then disk.primaryId else mem.primaryId;
    var lists := MergeSiteLists(base, disk, mem);
    Cfg(disk.revision,
        MergeWatch(disk.watch, mem.watch),
        id,
        UnionIds(disk.primaryAliases + mem.primaryAliases + [mem.primaryId], id),
        if mem.devices.None? then disk.devices
        else Some(MergeDevices(if disk.devices.None? then [] else disk.devices.value, mem.devices.value)),
        lists.sites, lists.tombs,
        disk.portable + map k | k in mem.portable && k in USER_KEYS :: mem.portable[k],
        disk.rest + mem.rest)
  }

  // ---------------------------------------------------------------- saving

  datatype SaveResult = Saved(cfg: Cfg) | Conflict(disk: Cfg)

  class ConfigManager {
    var disk: Cfg

    constructor (cfg: Cfg)
      ensures disk == cfg
    {
      disk := cfg;
    }

    /** A checked save: it replaces the file only at the revision the caller started from, and otherwise
        hands back what is there. */
    method SaveConfig(data: Cfg, expected: nat) returns (r: SaveResult)
      modifies this
      ensures old(disk).revision == expected ==>
        r == Saved(data.(revision := data.revision + 1)) && disk == r.cfg
      ensures old(disk).revision != expected ==> r == Conflict(disk) && disk == old(disk)
    {
      if disk.revision != expected { return Conflict(disk); }
      disk := data.(revision := data.revision + 1);
      return Saved(disk);
    }

    /** Read, change and write in one go; `mutator` is the caller's change. */
    method UpdateConfig(mutator: Cfg -> Cfg) returns (cfg: Cfg)
      requires mutator(disk).revision == disk.revision
      modifies this
      ensures disk == mutator(old(disk)).(revision := old(disk).revision + 1) && cfg == disk
    {
      cfg := mutator(disk);
      cfg := cfg.(revision := cfg.revision + 1);
      disk := cfg;
    }
  }

  /** What the form holds after a conflict with each of `disks` in turn; `merge` is `_merge_config_on_conflict`. */
  function Reworked(merge: (Cfg, Cfg) -> Cfg, config: Cfg, disks: seq<Cfg>): Cfg {
    if disks == [] then config
    else merge(disks[|disks| - 1], Reworked(merge, config, disks[..|disks| - 1]))
  }

  /** Attempt `k` meets the file of another version than the form was last merged with. */
  predicate Conflicts(merge: (Cfg, Cfg) -> Cfg, config: Cfg, disks: seq<Cfg>, k: nat)
    requires k < |disks|
  {
    disks[k].revision != Reworked(merge, config, disks[..k]).revision
  }

  /** One attempt: a checked save of `working` when the file holds `found`. */
  method TrySave(found: Cfg, working: Cfg) returns (r: SaveResult)
    ensures r == if found.revision == working.revision then Saved(working.(revision := working.revision + 1))
        else Conflict(found)
  {
    var manager := new ConfigManager(found);
    r := manager.SaveConfig(working, working.revision);
  }

  /** `_safe_save_config`: other writers may replace the file between attempts; `disks[k]` is what attempt
      `k` finds.  The result is the file's new content, or nothing after four conflicts. */
  method SafeSaveConfig(merge: (Cfg, Cfg) -> Cfg, config: Cfg, disks: seq<Cfg>)
    returns (saved: Option<Cfg>, attempt: nat)
    requires |disks| == MAX_CONFLICT_RETRIES + 1
    ensures attempt <= |disks|
    ensures forall k :: 0 <= k < attempt ==> Conflicts(merge, config, disks, k)
    ensures saved.Some? ==>
      && attempt < |disks| && !Conflicts(merge, config, disks, attempt)
      && saved.value == Reworked(merge, config, disks[..attempt]).(revision := disks[attempt].revision + 1)
    ensures saved.None? ==> attempt == |disks|
  {
    var working := config;
    attempt := 0;
    while attempt < |disks|
      invariant attempt <= |disks|
      invariant working == Reworked(merge, config, disks[..attempt])
      invariant forall k :: 0 <= k < attempt ==> Conflicts(merge, config, disks, k)
    {
      var r := TrySave(disks[attempt], working);
      if r.Saved? { return Some(r.cfg), attempt; }
      assert disks[..attempt + 1][..attempt] == disks[..attempt];
      working := merge(r.disk, working);
      attempt := attempt + 1;
    }
    saved := None;
  }

  // ---------------------------------------------------------------- what one merge keeps

  /** Exactly the names a merged device goes by: those of the form's device and those of the first device on disk
      that goes by the form's id.  `Matches(d, x)` reads "`d` goes by the name `x`". */
  lemma MergedDeviceNames(disk: seq<Device>, mem: Device, x: string)
    ensures var m := MatchIn(disk, mem.id);
      Matches(MergedDevice(disk, mem), x) <==> Matches(mem, x) || (m.Some? && Matches(m.value, x))
  {
    var m := MatchIn(disk, mem.id);
    if m.Some? {
      var ids := m.value.aliases + mem.aliases + [mem.id];
      assert x in ids <==> x in m.value.aliases || x in mem.aliases || x == mem.id;
      assert x in TextList(ids) <==> x in ids && x != "";
    }
  }

  /** A merged device goes by every name either side knew it by. */
  lemma MergedDeviceKeepsNames(disk: seq<Device>, mem: Device)
    ensures var r, m := MergedDevice(disk, mem), MatchIn(disk, mem.id);
      && KeepsNames(mem.id, mem.aliases, r.id, r.aliases)
      && (m.Some? ==> KeepsNames(m.value.id, m.value.aliases, r.id, r.aliases))
  {
    forall x ensures Matches(mem, x) ==> Matches(MergedDevice(disk, mem), x)
      ensures MatchIn(disk, mem.id).Some? && Matches(MatchIn(disk, mem.id).value, x) ==>
          Matches(MergedDevice(disk, mem), x)
    {
      MergedDeviceNames(disk, mem, x);
    }
    assert forall d: Device, x :: x != "" ==> (x in [d.id] + d.aliases <==> Matches(d, x));
  }

  /** Some device of the list goes by `x`. */
  ghost predicate Named(ds: seq<Device>, x: string) {
    exists i :: 0 <= i < |ds| && Matches(ds[i], x)
  }

  /** The disk's device that some device of the form is matched with goes by `x`. */
  ghost predicate NamedByMatch(disk: seq<Device>, mem: seq<Device>, x: string) {
    exists i :: 0 <= i < |mem| && MatchIn(disk, mem[i].id).Some? && Matches(MatchIn(disk, mem[i].id).value, x)
  }

  /** The names known after a merge are those the form knows and those of the disk's matched devices. */
  lemma MergedNames(disk: seq<Device>, mem: seq<Device>, x: string)
    ensures Named(MergeDevices(disk, mem), x) <==> Named(mem, x) || NamedByMatch(disk, mem, x)
  {
    var r := MergeDevices(disk, mem);
    forall i | 0 <= i < |mem|
      ensures Matches(r[i], x) <==>
          Matches(mem[i], x) || (MatchIn(disk, mem[i].id).Some? && Matches(MatchIn(disk, mem[i].id).value, x))
    {
      MergedDeviceNames(disk, mem[i], x);
    }
    if i :| 0 <= i < |mem| && Matches(mem[i], x) { assert Matches(r[i], x); }
    if i :| 0 <= i < |mem| && MatchIn(disk, mem[i].id).Some? && Matches(MatchIn(disk, mem[i].id).value, x) {
      assert Matches(r[i], x);
    }
  }

  /** A merge loses no name of the disk exactly when every name there is known to the form or belongs to
      a matched device. */
  lemma NoDiskNameLostIff(disk: seq<Device>, mem: seq<Device>)
    ensures (forall x :: Named(disk, x) ==> Named(MergeDevices(disk, mem), x)) <==>
            (forall x :: Named(disk, x) ==> Named(mem, x) || NamedByMatch(disk, mem, x))
  {
    forall x ensures Named(MergeDevices(disk, mem), x) <==> Named(mem, x) || NamedByMatch(disk, mem, x) {
      MergedNames(disk, mem, x);
    }
  }

  /** It does lose names: a form that knows the disk's device by an alias only is not matched with it, and a
      device another writer added is not in the form at all. */
  lemma DiskNamesCanBeLost()
    ensures var disk, mem := [Device("h", "B", ["C"], "")], [Device("h", "A", ["B"], "")];
      Named(disk, "C") && !Named(MergeDevices(disk, mem), "C")
    ensures var disk, mem := [Device("h", "A", [], ""), Device("k", "D", [], "")], [Device("h", "A", [], "")];
      Named(disk, "D") && !Named(MergeDevices(disk, mem), "D")
  {
    var d0, m0 := [Device("h", "B", ["C"], "")], [Device("h", "A", ["B"], "")];
    assert Matches(d0[0], "C");
    MergedNames(d0, m0, "C");
    assert MatchIn(d0, "A").None?;
    var d1, m1 := [Device("h", "A", [], ""), Device("k", "D", [], "")], [Device("h", "A", [], "")];
    assert Matches(d1[1], "D");
    MergedNames(d1, m1, "D");
    assert MatchIn(d1, "A") == Some(d1[0]);
  }

  lemma MergeUnique(base: Json, disk: Cfg, mem: Cfg)
    ensures UniqueUrls(MergeSites(base, disk.sites, mem.sites, true))
  {
    PutLocalsUnique(base, disk.sites);
    PutRemotesShape(base, PutLocals(base, disk.sites), mem.sites, true, "");
  }

  function SitesOf(c: Cfg): Local {
    Local(c.sites, c.deleted)
  }

  /** Whatever stamps the sites carry, a merge is the join of both sides, per url. */
  lemma MergeJoinsSites(base: Json, disk: Cfg, mem: Cfg, u: string)
    requires u != ""
    ensures UrlMark(SitesOf(MergeOnConflict(base, disk, mem)), u) ==
            Join(UrlMark(SitesOf(disk), u), Join(SiteMarks(mem.sites, u), TombMark(mem.deleted, u)))
  {
    var all := disk.deleted + mem.deleted;
    MergeTombsKeepsMarks(all);
    TombMarkConcat(disk.deleted, mem.deleted, u);
    MergeIsJoin(base, disk.sites, mem.sites, true, u);
    MergeUnique(base, disk, mem);
    ApplyIsJoin(MergeSites(base, disk.sites, mem.sites, true), MergeTombs(all), u);
    JoinRegroup(SiteMark(LastSite(disk.sites, u)), SiteMarks(mem.sites, u), TombMark(disk.deleted, u),
        TombMark(mem.deleted, u));
  }

  lemma {:induction false} LastBelowAll(rs: seq<Site>, u: string)
    ensures Below(SiteMark(LastSite(rs, u)), SiteMarks(rs, u))
  {
    if rs != [] {
      LastBelowAll(rs[..|rs| - 1], u);
      var a, b := SiteMarks(rs[..|rs| - 1], u), if rs[|rs| - 1].url == u then SiteMark(Some(rs[|rs| - 1])) else Unknown;
      JoinIsLeastUpperBound(a, b, Unknown);
    }
  }

  /** So it loses no site and no deletion known to either side, unless a later deletion or a strictly later
      update of the other side supersedes it. */
  lemma MergeLosesNoDeletion(base: Json, disk: Cfg, mem: Cfg, u: string)
    requires u != ""
    ensures var m := MergeOnConflict(base, disk, mem);
      && Below(TombMark(disk.deleted, u), UrlMark(SitesOf(m), u)) &&
        Below(TombMark(mem.deleted, u), UrlMark(SitesOf(m), u))
      && Below(UrlMark(SitesOf(disk), u), UrlMark(SitesOf(m), u)) &&
        Below(UrlMark(SitesOf(mem), u), UrlMark(SitesOf(m), u))
  {
    MergeJoinsSites(base, disk, mem, u);
    LastBelowAll(mem.sites, u);
    var a, b, t := UrlMark(SitesOf(disk), u), SiteMarks(mem.sites, u), TombMark(mem.deleted, u);
    var j := Join(a, Join(b, t));
    JoinIsLeastUpperBound(a, Join(b, t), Unknown);
    JoinIsLeastUpperBound(b, t, Unknown);
    JoinIsLeastUpperBound(SiteMark(LastSite(mem.sites, u)), t, j);
    JoinIsLeastUpperBound(SiteMark(LastSite(disk.sites, u)), TombMark(disk.deleted, u), Unknown);
  }
}
