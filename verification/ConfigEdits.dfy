/**
 What becomes of the form's own settings when a save meets other versions of the file: setting by setting, after
 any number of conflicts, whose value is saved.
 */
module ConfigEdits {
  import opened Wrappers
  import opened Sites
  import opened DeviceRegistry
  import opened RegistryExport
  import opened RegistryRecords
  import opened ConfigStore

  // ---------------------------------------------------------------- one setting over several versions

  function At(f: Fields, k: string): Option<Json> {
    if k in f then Some(f[k]) else None
  }

  function WatchAt(watch: Option<Fields>, k: string): Option<Json> {
    if watch.None? then None else At(watch.value, k)
  }

  /** The form's own value when it has one, otherwise that of the first version met that has one. */
  function FirstSome<T>(own: Option<T>, met: seq<Option<T>>): Option<T>
    decreases |met|
  {
    if own.Some? || met == [] then own else FirstSome(met[0], met[1..])
  }

  /** That of the last version met that has one, otherwise the form's own. */
  function LastSome<T>(own: Option<T>, met: seq<Option<T>>): Option<T> {
    if met == [] then own
    else if met[|met| - 1].Some? then met[|met| - 1]
    else LastSome(own, met[..|met| - 1])
  }

  lemma {:induction false} FirstSomeThen<T>(own: Option<T>, met: seq<Option<T>>, next: Option<T>)
    ensures FirstSome(own, met + [next]) == if FirstSome(own, met).Some? then FirstSome(own, met) else next
    decreases |met|
  {
    if !own.Some? && met != [] {
      assert (met + [next])[1..] == met[1..] + [next];
      FirstSomeThen(met[0], met[1..], next);
    }
  }

  function Rests(met: seq<Cfg>, k: string): seq<Option<Json>> {
    seq(|met|, i requires 0 <= i < |met| => At(met[i].rest, k))
  }

  function Portables(met: seq<Cfg>, k: string): seq<Option<Json>> {
    seq(|met|, i requires 0 <= i < |met| => At(met[i].portable, k))
  }

  function WatchKeys(met: seq<Cfg>, k: string): seq<Option<Json>> {
    seq(|met|, i requires 0 <= i < |met| => WatchAt(met[i].watch, k))
  }

  function Watches(met: seq<Cfg>): seq<Option<Fields>> {
    seq(|met|, i requires 0 <= i < |met| => met[i].watch)
  }

  function Readers(met: seq<Cfg>): seq<Option<seq<Device>>> {
    seq(|met|, i requires 0 <= i < |met| => met[i].devices)
  }

  function Primary(id: string): Option<string> {
    if id == "" then None else Some(id)
  }

  function Primaries(met: seq<Cfg>): seq<Option<string>> {
    seq(|met|, i requires 0 <= i < |met| => Primary(met[i].primaryId))
  }

  lemma Columns(met: seq<Cfg>, disk: Cfg, k: string)
    ensures Rests(met + [disk], k) == Rests(met, k) + [At(disk.rest, k)]
    ensures Portables(met + [disk], k) == Portables(met, k) + [At(disk.portable, k)]
    ensures WatchKeys(met + [disk], k) == WatchKeys(met, k) + [WatchAt(disk.watch, k)]
    ensures Watches(met + [disk]) == Watches(met) + [disk.watch]
    ensures Readers(met + [disk]) == Readers(met) + [disk.devices]
    ensures Primaries(met + [disk]) == Primaries(met) + [Primary(disk.primaryId)]
  {
  }

  // ---------------------------------------------------------------- what is saved, setting by setting

  /** A top-level setting is the form's; one the form lacks comes from the first version that has it. */
  ghost predicate RestKept(start: Cfg, met: seq<Cfg>, saved: Cfg) {
    forall k :: At(saved.rest, k) == FirstSome(At(start.rest, k), Rests(met, k))
  }

  /** The same for the shared-folder settings the form edits; all others are those of the last version met. */
  ghost predicate PortableKept(start: Cfg, met: seq<Cfg>, saved: Cfg) {
    forall k :: At(saved.portable, k) ==
      if k in USER_KEYS then FirstSome(At(start.portable, k), Portables(met, k))
      else if met == [] then At(start.portable, k) else At(met[|met| - 1].portable, k)
  }

  /** Watch settings are the form's exactly (the first version's that has any, if the form has none), but for the keys
      of background writers: those come from the last version that has them. */
  ghost predicate WatchKept(start: Cfg, met: seq<Cfg>, saved: Cfg) {
    && (saved.watch.Some? <==> FirstSome(start.watch, Watches(met)).Some?)
    && forall k :: WatchAt(saved.watch, k) ==
         if k in WATCH_KEYS then LastSome(WatchAt(start.watch, k), WatchKeys(met, k))
         else WatchAt(FirstSome(start.watch, Watches(met)), k)
  }

  /** The same readers in the same order under the same names and addresses; only ids and aliases may differ. */
  ghost predicate SameReaders(ds: Option<seq<Device>>, es: Option<seq<Device>>) {
    && (ds.Some? <==> es.Some?)
    && (ds.Some? ==>
          && |ds.value| == |es.value|
          && forall i :: 0 <= i < |ds.value| ==>
               es.value[i].ip == ds.value[i].ip && es.value[i].name == ds.value[i].name)
  }

  ghost predicate PrimaryNamed(c: Cfg, x: string) {
    x != "" && (x == c.primaryId || x in c.primaryAliases)
  }

  /** The primary reader's id is the last one met, and it is known by every name of the form and the versions met and by
      no other. */
  ghost predicate PrimaryKept(start: Cfg, met: seq<Cfg>, saved: Cfg) {
    && Primary(saved.primaryId) == LastSome(Primary(start.primaryId), Primaries(met))
    && forall x :: PrimaryNamed(saved, x) <==>
         PrimaryNamed(start, x) || exists i :: 0 <= i < |met| && PrimaryNamed(met[i], x)
  }

  /** Everything a form that opened as `start` and met the versions `met` has kept in `saved`. */
  ghost predicate EditsKept(start: Cfg, met: seq<Cfg>, saved: Cfg) {
    && RestKept(start, met, saved) && PortableKept(start, met, saved) && WatchKept(start, met, saved)
    && SameReaders(FirstSome(start.devices, Readers(met)), saved.devices)
    && PrimaryKept(start, met, saved)
  }

  // ---------------------------------------------------------------- one merge

  lemma WatchFieldByField(disk: Option<Fields>, mem: Option<Fields>, k: string)
    ensures var m := MergeWatch(disk, mem);
      && (m.Some? <==> mem.Some? || disk.Some?)
      && WatchAt(m, k) ==
           (if k in WATCH_KEYS then FirstSome(WatchAt(disk, k), [WatchAt(mem, k)])
            else if mem.Some? then WatchAt(mem, k) else WatchAt(disk, k))
  {
  }

  lemma OverriddenBy(disk: Fields, mem: Fields, k: string)
    ensures At(disk + mem, k) == FirstSome(At(mem, k), [At(disk, k)])
    ensures At(disk + map x | x in mem && x in USER_KEYS :: mem[x], k) ==
      if k in USER_KEYS then FirstSome(At(mem, k), [At(disk, k)]) else At(disk, k)
  {
  }

  /** Setting by setting, what one conflict merge takes from the form and what from the disk. */
  lemma MergeFieldByField(base: Json, disk: Cfg, mem: Cfg, k: string)
    ensures var m := MergeOnConflict(base, disk, mem);
      && At(m.rest, k) == FirstSome(At(mem.rest, k), [At(disk.rest, k)])
      && At(m.portable, k) ==
           (if k in USER_KEYS then FirstSome(At(mem.portable, k), [At(disk.portable, k)]) else At(disk.portable, k))
      && (m.watch.Some? <==> mem.watch.Some? || disk.watch.Some?)
      && WatchAt(m.watch, k) ==
           (if k in WATCH_KEYS then FirstSome(WatchAt(disk.watch, k), [WatchAt(mem.watch, k)])
            else if mem.watch.Some? then WatchAt(mem.watch, k) else WatchAt(disk.watch, k))
      && m.revision == disk.revision
  {
    OverriddenBy(disk.rest, mem.rest, k);
    OverriddenBy(disk.portable, mem.portable, k);
    WatchFieldByField(disk.watch, mem.watch, k);
  }

  /** The match is the first device on disk that goes by the id. */
  lemma {:induction false} MatchIsFirst(disk: seq<Device>, id: string) returns (i: nat)
    ensures MatchIn(disk, id).Some? ==>
      i < |disk| && MatchIn(disk, id).value == disk[i] && forall j :: 0 <= j < i ==> !Matches(disk[j], id)
  {
    i := 0;
    if disk != [] && !Matches(disk[0], id) {
      i := MatchIsFirst(disk[1..], id);
      i := i + 1;
    }
  }

  /** Which reader a merged device is, and the names it is saved under: without a match its own, otherwise the disk's id
      if it has one, and the disk's aliases, then the form's, then the form's id, each once and without the id. */
  lemma MergedDeviceIs(disk: seq<Device>, mem: Device)
    ensures var r, m := MergedDevice(disk, mem), MatchIn(disk, mem.id);
      && r.ip == mem.ip && r.name == mem.name
      && r.id == (if m.Some? && m.value.id != "" then m.value.id else mem.id)
      && if m.None? then r.aliases == mem.aliases
         else
           var all := m.value.aliases + mem.aliases + [mem.id];
           InOrderOf(all, r.aliases) && forall x :: x in r.aliases <==> x != "" && x != r.id && x in all
  {
    var r, m := MergedDevice(disk, mem), MatchIn(disk, mem.id);
    if m.Some? {
      var all := m.value.aliases + mem.aliases + [mem.id];
      UnionInOrder(all, r.id);
      forall x ensures x in r.aliases <==> x != "" && x != r.id && x in all { UnionMembers(all, r.id, x); }
    }
  }

  lemma MergedReaders(base: Json, disk: Cfg, mem: Cfg)
    ensures SameReaders(FirstSome(mem.devices, [disk.devices]), MergeOnConflict(base, disk, mem).devices)
  {
    if mem.devices.Some? {
      var ds := if disk.devices.None? then [] else disk.devices.value;
      forall i | 0 <= i < |mem.devices.value|
        ensures MergedDevice(ds, mem.devices.value[i]).ip == mem.devices.value[i].ip
        ensures MergedDevice(ds, mem.devices.value[i]).name == mem.devices.value[i].name
      {
        MergedDeviceIs(ds, mem.devices.value[i]);
      }
    }
  }

  lemma MergedPrimary(base: Json, disk: Cfg, mem: Cfg, x: string)
    ensures var m := MergeOnConflict(base, disk, mem);
      && Primary(m.primaryId) == LastSome(Primary(mem.primaryId), [Primary(disk.primaryId)])
      && (PrimaryNamed(m, x) <==> PrimaryNamed(disk, x) || PrimaryNamed(mem, x))
      && InOrderOf(disk.primaryAliases + mem.primaryAliases + [mem.primaryId], m.primaryAliases)
  {
    var ids := disk.primaryAliases + mem.primaryAliases + [mem.primaryId];
    assert x in ids <==> x in disk.primaryAliases || x in mem.primaryAliases || x == mem.primaryId;
    var id := if disk.primaryId != "" then disk.primaryId else mem.primaryId;
    UnionMembers(ids, id, x);
    UnionInOrder(ids, id);
  }

  /** Names come in the order in which they first appear. */
  lemma UnionInOrder(ids: seq<string>, exclude: string)
    ensures InOrderOf(ids, UnionIds(ids, exclude))
  {
    FirstsInOrder(ids);
    WithoutInOrder(ids, TextList(ids), exclude);
  }

  lemma UnionMembers(ids: seq<string>, exclude: string, x: string)
    ensures x in UnionIds(ids, exclude) <==> x != "" && x != exclude && x in ids
  {
  }

  // ---------------------------------------------------------------- one more conflict

  lemma RestStep(base: Json, start: Cfg, met: seq<Cfg>, disk: Cfg, mem: Cfg)
    requires RestKept(start, met, mem)
    ensures RestKept(start, met + [disk], MergeOnConflict(base, disk, mem))
  {
    forall k ensures At(MergeOnConflict(base, disk, mem).rest, k) ==
      FirstSome(At(start.rest, k), Rests(met + [disk], k))
    {
      MergeFieldByField(base, disk, mem, k);
      Columns(met, disk, k);
      FirstSomeThen(At(start.rest, k), Rests(met, k), At(disk.rest, k));
    }
  }

  lemma PortableStep(base: Json, start: Cfg, met: seq<Cfg>, disk: Cfg, mem: Cfg)
    requires PortableKept(start, met, mem)
    ensures PortableKept(start, met + [disk], MergeOnConflict(base, disk, mem))
  {
    forall k ensures At(MergeOnConflict(base, disk, mem).portable, k) ==
      if k in USER_KEYS then FirstSome(At(start.portable, k), Portables(met + [disk], k)) else At(disk.portable, k)
    {
      MergeFieldByField(base, disk, mem, k);
      Columns(met, disk, k);
      FirstSomeThen(At(start.portable, k), Portables(met, k), At(disk.portable, k));
    }
  }

  lemma WatchKeyStep(start: Cfg, met: seq<Cfg>, disk: Cfg, mem: Option<Fields>, k: string)
    requires mem.Some? <==> FirstSome(start.watch, Watches(met)).Some?
    requires WatchAt(mem, k) ==
      if k in WATCH_KEYS then LastSome(WatchAt(start.watch, k), WatchKeys(met, k))
      else WatchAt(FirstSome(start.watch, Watches(met)), k)
    ensures WatchAt(MergeWatch(disk.watch, mem), k) ==
      if k in WATCH_KEYS then LastSome(WatchAt(start.watch, k), WatchKeys(met + [disk], k))
      else WatchAt(FirstSome(start.watch, Watches(met + [disk])), k)
  {
    WatchFieldByField(disk.watch, mem, k);
    Columns(met, disk, k);
    FirstSomeThen(start.watch, Watches(met), disk.watch);
    assert (WatchKeys(met, k) + [WatchAt(disk.watch, k)])[..|met|] == WatchKeys(met, k);
  }

  lemma WatchStep(base: Json, start: Cfg, met: seq<Cfg>, disk: Cfg, mem: Cfg)
    requires WatchKept(start, met, mem)
    ensures WatchKept(start, met + [disk], MergeOnConflict(base, disk, mem))
  {
    var m := MergeOnConflict(base, disk, mem).watch;
    FirstSomeThen(start.watch, Watches(met), disk.watch);
    Columns(met, disk, "");
    WatchFieldByField(disk.watch, mem.watch, "");
    forall k ensures WatchAt(m, k) ==
      if k in WATCH_KEYS then LastSome(WatchAt(start.watch, k), WatchKeys(met + [disk], k))
      else WatchAt(FirstSome(start.watch, Watches(met + [disk])), k)
    {
      WatchKeyStep(start, met, disk, mem.watch, k);
    }
  }

  lemma ReadersStep(base: Json, start: Cfg, met: seq<Cfg>, disk: Cfg, mem: Cfg)
    requires SameReaders(FirstSome(start.devices, Readers(met)), mem.devices)
    ensures SameReaders(FirstSome(start.devices, Readers(met + [disk])), MergeOnConflict(base, disk, mem).devices)
  {
    FirstSomeThen(start.devices, Readers(met), disk.devices);
    Columns(met, disk, "");
    MergedReaders(base, disk, mem);
  }

  lemma PrimaryStep(base: Json, start: Cfg, met: seq<Cfg>, disk: Cfg, mem: Cfg)
    requires PrimaryKept(start, met, mem)
    ensures PrimaryKept(start, met + [disk], MergeOnConflict(base, disk, mem))
  {
    var m := MergeOnConflict(base, disk, mem);
    MergedPrimary(base, disk, mem, "");
    Columns(met, disk, "");
    assert (Primaries(met) + [Primary(disk.primaryId)])[..|met|] == Primaries(met);
    forall x ensures PrimaryNamed(m, x) <==>
      PrimaryNamed(start, x) || exists i :: 0 <= i < |met + [disk]| && PrimaryNamed((met + [disk])[i], x)
    {
      MergedPrimary(base, disk, mem, x);
      if i :| 0 <= i < |met| && PrimaryNamed(met[i], x) { assert PrimaryNamed((met + [disk])[i], x); }
      assert (met + [disk])[|met|] == disk;
    }
  }

  /** One more conflict keeps all of it. */
  lemma EditsStep(base: Json, start: Cfg, met: seq<Cfg>, all: seq<Cfg>, disk: Cfg, mem: Cfg, out: Cfg)
    requires EditsKept(start, met, mem) && all == met + [disk] && out == MergeOnConflict(base, disk, mem)
    ensures EditsKept(start, all, out)
  {
    RestStep(base, start, met, disk, mem);
    PortableStep(base, start, met, disk, mem);
    WatchStep(base, start, met, disk, mem);
    ReadersStep(base, start, met, disk, mem);
    PrimaryStep(base, start, met, disk, mem);
  }

  lemma PrimaryAtAnyRevision(start: Cfg, met: seq<Cfg>, c: Cfg, d: Cfg)
    requires PrimaryKept(start, met, c) && d.primaryId == c.primaryId && d.primaryAliases == c.primaryAliases
    ensures PrimaryKept(start, met, d)
  {
    forall x ensures PrimaryNamed(d, x) <==>
      PrimaryNamed(start, x) || exists i :: 0 <= i < |met| && PrimaryNamed(met[i], x)
    {
      assert PrimaryNamed(d, x) <==> PrimaryNamed(c, x);
    }
  }

  /** The revision a file is written with plays no part. */
  lemma EditsAtAnyRevision(start: Cfg, met: seq<Cfg>, c: Cfg, d: Cfg)
    requires EditsKept(start, met, c) && d == c.(revision := d.revision)
    ensures EditsKept(start, met, d)
  {
    PrimaryAtAnyRevision(start, met, c, d);
  }

  lemma NoEdits(start: Cfg)
    ensures EditsKept(start, [], start)
  {
  }
}
