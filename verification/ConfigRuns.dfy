/**
 The configuration file under concurrent writers: background updates and any number of forms, each
 saving, merging and retrying, in any interleaving.
 */
module ConfigRuns {
  import opened Wrappers
  import opened Lww
  import opened Sites
  import opened SiteProofs
  import opened DeviceRegistry
  import opened IdentitySafety
  import opened ConfigStore
  import opened ConfigEdits
  import opened SiteContents
  import H = History

  /** A form: what it opened with, the file version it is based on, what it would save, and the versions it was
      merged with after conflicts, the last being its basis. */
  datatype Client = Client(start: Cfg, basis: Cfg, working: Cfg, met: seq<Cfg>)

  /** Every version the file has had, the last being the file, and the open forms. */
  datatype World = World(versions: seq<Cfg>, clients: map<nat, Client>)

  datatype Action =
    | Open(id: nat, data: Cfg)   // load the file and edit it
    | Update(data: Cfg)          // a background read-modify-write
    | TrySave(id: nat)           // one attempt of `_safe_save_config`

  ghost predicate Kept(from: Fields, to: Fields, keys: set<string>) {
    forall k :: k in keys && k in from ==> k in to && to[k] == from[k]
  }

  ghost predicate KeptExcept(from: Fields, to: Fields, keys: set<string>) {
    forall k :: k !in keys && k in from ==> k in to && to[k] == from[k]
  }

  ghost predicate SitesCarry(d: Cfg, w: Cfg) {
    forall u :: u != "" ==> Below(TombMark(d.deleted, u), UrlMark(SitesOf(w), u))
  }

  /** `w` undoes nothing the file version `d` holds for others: the Watch queue, the push stamps, the names of
      the primary reader, and the site deletions. */
  ghost predicate Carries(d: Cfg, w: Cfg) {
    && (d.watch.Some? ==> w.watch.Some? && Kept(d.watch.value, w.watch.value, WATCH_KEYS))
    && KeptExcept(d.portable, w.portable, USER_KEYS)
    && KeepsNames(d.primaryId, d.primaryAliases, w.primaryId, w.primaryAliases)
    && SitesCarry(d, w)
  }

  ghost predicate DevicesKept(s: Option<seq<Device>>, w: Option<seq<Device>>) {
    s.Some? ==>
      && w.Some? && |w.value| == |s.value|
      && forall i :: 0 <= i < |s.value| ==>
          KeepsNames(s.value[i].id, s.value[i].aliases, w.value[i].id, w.value[i].aliases)
  }

  /** Every site and every deletion of `s` is still there in `w` or superseded by a later deletion or update. */
  ghost predicate SitesKept(s: Cfg, w: Cfg) {
    forall u :: u != "" ==> Below(UrlMark(SitesOf(s), u), UrlMark(SitesOf(w), u))
  }

  /** `w` still has every name and every site or deletion mark the form opened with. */
  ghost predicate Retains(s: Cfg, w: Cfg) {
    && KeepsNames(s.primaryId, s.primaryAliases, w.primaryId, w.primaryAliases)
    && DevicesKept(s.devices, w.devices)
    && SitesKept(s, w)
  }

  /** What a form that opened as `start` holds after conflicts with the versions `met`. */
  function Held(base: Json, start: Cfg, met: seq<Cfg>): Cfg {
    if met == [] then start else MergeOnConflict(base, met[|met| - 1], Held(base, start, met[..|met| - 1]))
  }

  function Disk(w: World): Cfg
    requires w.versions != []
  {
    w.versions[|w.versions| - 1]
  }

  /** A form may change anything but what background writers own, the primary reader's names and deletions. */
  ghost predicate Enabled(w: World, a: Action) {
    w.versions != [] &&
    match a
    case Open(_, data) => data.revision == Disk(w).revision && Carries(Disk(w), data)
    case Update(data) => data.revision == Disk(w).revision
    case TrySave(id) => id in w.clients
  }

  predicate Accepted(w: World, id: nat)
    requires w.versions != [] && id in w.clients
  {
    w.clients[id].working.revision == Disk(w).revision
  }

  function Bumped(c: Cfg): Cfg {
    c.(revision := c.revision + 1)
  }

  ghost function Next(base: Json, w: World, a: Action): World
    requires Enabled(w, a)
  {
    match a
    case Open(id, data) => w.(clients := w.clients[id := Client(data, Disk(w), data, [])])
    case Update(data) => w.(versions := w.versions + [Bumped(data)])
    case TrySave(id) =>
      var c := w.clients[id];
      if Accepted(w, id) then World(w.versions + [Bumped(c.working)], w.clients - {id})
      else w.(clients := w.clients[id := Client(c.start, Disk(w), MergeOnConflict(base, Disk(w), c.working),
          c.met + [Disk(w)])])
  }

  /** Versions rise by revision, and every form is based on one of them. */
  ghost predicate Ordered(w: World) {
    && w.versions != []
    && (forall i, j :: 0 <= i < j < |w.versions| ==> w.versions[i].revision < w.versions[j].revision)
    && (forall id :: id in w.clients ==>
        w.clients[id].basis in w.versions && w.clients[id].working.revision == w.clients[id].basis.revision)
  }

  ghost predicate ClientOk(base: Json, c: Client) {
    && Carries(c.basis, c.working) && Retains(c.start, c.working)
    && c.working == Held(base, c.start, c.met)
    && (c.met != [] ==> c.met[|c.met| - 1] == c.basis && SitesKept(c.basis, c.working))
  }

  ghost predicate Inv(base: Json, w: World) {
    Ordered(w) && forall id :: id in w.clients ==> ClientOk(base, w.clients[id])
  }

  // ---------------------------------------------------------------- one merge

  lemma KeepsNamesTransitive(a: string, xs: seq<string>, b: string, ys: seq<string>, c: string, zs: seq<string>)
    requires KeepsNames(a, xs, b, ys) && KeepsNames(b, ys, c, zs)
    ensures KeepsNames(a, xs, c, zs)
  {
  }

  lemma PrimaryKept(disk: Cfg, mem: Cfg, id: string, aliases: seq<string>)
    requires id == if disk.primaryId != "" then disk.primaryId else mem.primaryId
    requires aliases == UnionIds(disk.primaryAliases + mem.primaryAliases + [mem.primaryId], id)
    ensures KeepsNames(disk.primaryId, disk.primaryAliases, id, aliases)
    ensures KeepsNames(mem.primaryId, mem.primaryAliases, id, aliases)
  {
    var ids := disk.primaryAliases + mem.primaryAliases + [mem.primaryId];
    forall x | x != "" && x in [disk.primaryId] + disk.primaryAliases ensures x in [id] + aliases {
      if x != id { assert x in ids; }
    }
    forall x | x != "" && x in [mem.primaryId] + mem.primaryAliases ensures x in [id] + aliases {
      assert x in ids;
    }
  }

  lemma MergeKeepsDevices(disk: Option<seq<Device>>, mem: Option<seq<Device>>, out: Option<seq<Device>>)
    requires out == if mem.None? then disk else Some(MergeDevices(if disk.None? then [] else disk.value, mem.value))
    ensures DevicesKept(mem, out)
  {
    if mem.Some? {
      var ds := if disk.None? then [] else disk.value;
      forall i | 0 <= i < |mem.value|
        ensures KeepsNames(mem.value[i].id, mem.value[i].aliases, out.value[i].id, out.value[i].aliases)
      {
        MergedDeviceKeepsNames(ds, mem.value[i]);
      }
    }
  }

  lemma MergeKeepsFields(base: Json, disk: Cfg, mem: Cfg)
    ensures var m := MergeOnConflict(base, disk, mem);
      && (disk.watch.Some? ==> m.watch.Some? && Kept(disk.watch.value, m.watch.value, WATCH_KEYS))
      && KeptExcept(disk.portable, m.portable, USER_KEYS)
      && m.revision == disk.revision
  {
  }

  lemma MergeKeepsIdentities(base: Json, disk: Cfg, mem: Cfg)
    ensures var m := MergeOnConflict(base, disk, mem);
      && DevicesKept(mem.devices, m.devices)
      && KeepsNames(disk.primaryId, disk.primaryAliases, m.primaryId, m.primaryAliases)
      && KeepsNames(mem.primaryId, mem.primaryAliases, m.primaryId, m.primaryAliases)
  {
    var m := MergeOnConflict(base, disk, mem);
    PrimaryKept(disk, mem, m.primaryId, m.primaryAliases);
    MergeKeepsDevices(disk.devices, mem.devices, m.devices);
  }

  lemma MergeKeepsSites(base: Json, disk: Cfg, mem: Cfg)
    ensures var m := MergeOnConflict(base, disk, mem);
      SitesCarry(disk, m) && SitesKept(disk, m) && SitesKept(mem, m)
  {
    var m := MergeOnConflict(base, disk, mem);
    forall u | u != ""
      ensures Below(TombMark(disk.deleted, u), UrlMark(SitesOf(m), u))
      ensures Below(UrlMark(SitesOf(disk), u), UrlMark(SitesOf(m), u)) &&
        Below(UrlMark(SitesOf(mem), u), UrlMark(SitesOf(m), u))
    {
      MergeLosesNoDeletion(base, disk, mem, u);
    }
  }

  lemma BelowTransitive(a: Mark, b: Mark, c: Mark)
    requires Below(a, b) && Below(b, c)
    ensures Below(a, c)
  {
  }

  lemma RetainsTransitive(a: Cfg, b: Cfg, c: Cfg)
    requires Retains(a, b) && Retains(b, c)
    ensures Retains(a, c)
  {
    KeepsNamesTransitive(a.primaryId, a.primaryAliases, b.primaryId, b.primaryAliases, c.primaryId, c.primaryAliases);
    if a.devices.Some? {
      forall i | 0 <= i < |a.devices.value|
        ensures KeepsNames(a.devices.value[i].id, a.devices.value[i].aliases, c.devices.value[i].id,
            c.devices.value[i].aliases)
      {
        KeepsNamesTransitive(a.devices.value[i].id, a.devices.value[i].aliases, b.devices.value[i].id,
            b.devices.value[i].aliases,
                             c.devices.value[i].id, c.devices.value[i].aliases);
      }
    }
    forall u | u != "" ensures Below(UrlMark(SitesOf(a), u), UrlMark(SitesOf(c), u)) {
      BelowTransitive(UrlMark(SitesOf(a), u), UrlMark(SitesOf(b), u), UrlMark(SitesOf(c), u));
    }
  }

  lemma HeldNext(base: Json, start: Cfg, met: seq<Cfg>, disk: Cfg)
    ensures Held(base, start, met + [disk]) == MergeOnConflict(base, disk, Held(base, start, met))
  {
    assert (met + [disk])[..|met|] == met;
  }

  lemma ConflictKeepsForm(base: Json, start: Cfg, met: seq<Cfg>, disk: Cfg, working: Cfg)
    requires working == Held(base, start, met)
    ensures FormKept(base, start, met + [disk], MergeOnConflict(base, disk, working))
  {
    HeldNext(base, start, met, disk);
    HeldIsKept(base, start, met + [disk]);
  }

  lemma MergeCarries(base: Json, disk: Cfg, mem: Cfg)
    ensures var m := MergeOnConflict(base, disk, mem); Carries(disk, m) && Retains(mem, m) && SitesKept(disk, m)
  {
    MergeKeepsFields(base, disk, mem);
    MergeKeepsIdentities(base, disk, mem);
    MergeKeepsSites(base, disk, mem);
  }

  lemma RebasedOk(base: Json, disk: Cfg, c: Client, m: Cfg)
    requires ClientOk(base, c) && m == Held(base, c.start, c.met + [disk])
    requires Carries(disk, m) && Retains(c.working, m) && SitesKept(disk, m)
    ensures ClientOk(base, Client(c.start, disk, m, c.met + [disk]))
  {
    RetainsTransitive(c.start, c.working, m);
  }

  /** A conflict merge undoes nothing of the file's version and loses nothing the form had, whose settings it keeps. */
  lemma MergeClientOk(base: Json, disk: Cfg, c: Client)
    requires ClientOk(base, c)
    ensures ClientOk(base, Client(c.start, disk, MergeOnConflict(base, disk, c.working), c.met + [disk]))
    ensures FormKept(base, c.start, c.met + [disk], MergeOnConflict(base, disk, c.working))
  {
    HeldNext(base, c.start, c.met, disk);
    MergeCarries(base, disk, c.working);
    RebasedOk(base, disk, c, MergeOnConflict(base, disk, c.working));
    ConflictKeepsForm(base, c.start, c.met, disk, c.working);
  }

  // ---------------------------------------------------------------- names over any number of conflicts

  ghost predicate Listed(ds: Option<seq<Device>>, x: string) {
    ds.Some? && Named(ds.value, x)
  }

  /** The name `x` enters by a conflict with `disk`: a device the form is matched with has it, or the form lists no
      readers at all and takes over the disk's. */
  ghost predicate EntersFrom(disk: Cfg, mem: Cfg, x: string) {
    if mem.devices.None? then Listed(disk.devices, x)
    else disk.devices.Some? && NamedByMatch(disk.devices.value, mem.devices.value, x)
  }

  /** It entered by one of the conflicts. */
  ghost predicate Entered(base: Json, start: Cfg, met: seq<Cfg>, x: string) {
    met != [] &&
    var init := met[..|met| - 1];
    Entered(base, start, init, x) || EntersFrom(met[|met| - 1], Held(base, start, init), x)
  }

  lemma NoneMatched(mem: seq<Device>, x: string)
    ensures !NamedByMatch([], mem, x)
  {
  }

  lemma OneConflictNames(base: Json, disk: Cfg, mem: Cfg, x: string)
    ensures Listed(MergeOnConflict(base, disk, mem).devices, x) <==> Listed(mem.devices, x) || EntersFrom(disk, mem, x)
  {
    if mem.devices.Some? {
      MergedNames(if disk.devices.None? then [] else disk.devices.value, mem.devices.value, x);
      NoneMatched(mem.devices.value, x);
    }
  }

  /** The names a form holds after its conflicts: those it opened with and those that entered, no others. */
  lemma {:induction false} HeldNames(base: Json, start: Cfg, met: seq<Cfg>, x: string)
    ensures Listed(Held(base, start, met).devices, x) <==> Listed(start.devices, x) || Entered(base, start, met, x)
  {
    if met != [] {
      var init := met[..|met| - 1];
      HeldNames(base, start, init, x);
      OneConflictNames(base, met[|met| - 1], Held(base, start, init), x);
    }
  }

  // ---------------------------------------------------------------- the form's edits over any number of conflicts

  /** Setting by setting, whose value a form holds after its conflicts. */
  lemma {:induction false} HeldEdits(base: Json, start: Cfg, met: seq<Cfg>)
    ensures EditsKept(start, met, Held(base, start, met))
  {
    if met == [] {
      NoEdits(start);
    } else {
      var init, disk := met[..|met| - 1], met[|met| - 1];
      HeldEdits(base, start, init);
      assert met == init + [disk];
      EditsStep(base, start, init, met, disk, Held(base, start, init), Held(base, start, met));
    }
  }

  /** A site of the form that nothing held elsewhere beats: no deletion the form opened with, and in the versions met no
      deletion it does not outlive and no site as new, unless neither is stamped. */
  ghost predicate Undisputed(s: Site, start: Cfg, met: seq<Cfg>) {
    && s.url != "" && Find(start.sites, s.url) == Some(s) && Survives(s, start.deleted)
    && forall i :: 0 <= i < |met| ==> Unopposed(s, SitesOf(met[i]))
  }

  /** The form holds its site `s` with its own settings, and no deletion of it. */
  ghost predicate HoldsSite(form: Cfg, s: Site) {
    UniqueUrls(form.sites) && Find(form.sites, s.url) == Some(s) && Survives(s, form.deleted)
  }

  lemma ConflictKeepsSite(base: Json, disk: Cfg, mem: Cfg, s: Site)
    requires HoldsSite(mem, s) && s.url != "" && Unopposed(s, SitesOf(disk))
    ensures HoldsSite(MergeOnConflict(base, disk, mem), Filled(base, s))
  {
    var r := MergeSiteLists(base, disk, mem);
    UnopposedStays(base, SitesOf(disk), SitesOf(mem), s, r);
    forall t: nat ensures !Newest(r.tombs, s.url, t) {
      assert SiteTomb(s.url, H.At(t)) !in r.tombs;
    }
  }

  /** The form's sites keep their settings through any number of conflicts in which nothing beats them. */
  lemma {:induction false} HeldSite(base: Json, start: Cfg, met: seq<Cfg>, s: Site)
    requires UniqueUrls(start.sites) && Undisputed(s, start, met)
    ensures HoldsSite(Held(base, start, met), if met == [] then s else Filled(base, s))
  {
    if met != [] {
      var init := met[..|met| - 1];
      HeldSite(base, start, init, s);
      ConflictKeepsSite(base, met[|met| - 1], Held(base, start, init), if init == [] then s else Filled(base, s));
      FillIdempotent(base, s.body);
    }
  }

  /** A file with the form's content: every setting the form edited has its value, and every site nothing beats its
      settings. */
  ghost predicate FormKept(base: Json, start: Cfg, met: seq<Cfg>, saved: Cfg) {
    EditsKept(start, met, saved) && (UniqueUrls(start.sites) ==> SitesHeld(base, start, met, saved))
  }

  ghost predicate SitesHeld(base: Json, start: Cfg, met: seq<Cfg>, saved: Cfg) {
    forall s :: Undisputed(s, start, met) ==> HoldsSite(saved, if met == [] then s else Filled(base, s))
  }

  lemma HeldSites(base: Json, start: Cfg, met: seq<Cfg>)
    requires UniqueUrls(start.sites)
    ensures SitesHeld(base, start, met, Held(base, start, met))
  {
    forall s | Undisputed(s, start, met)
      ensures HoldsSite(Held(base, start, met), if met == [] then s else Filled(base, s))
    {
      HeldSite(base, start, met, s);
    }
  }

  /** What a form holds after its conflicts has all of it. */
  lemma HeldIsKept(base: Json, start: Cfg, met: seq<Cfg>)
    ensures FormKept(base, start, met, Held(base, start, met))
  {
    HeldEdits(base, start, met);
    if UniqueUrls(start.sites) { HeldSites(base, start, met); }
  }

  lemma BumpedIsKept(base: Json, start: Cfg, met: seq<Cfg>, held: Cfg)
    requires FormKept(base, start, met, held)
    ensures FormKept(base, start, met, Bumped(held))
  {
    var saved := Bumped(held);
    EditsAtAnyRevision(start, met, held, saved);
    if UniqueUrls(start.sites) {
      forall s | Undisputed(s, start, met) ensures HoldsSite(saved, if met == [] then s else Filled(base, s)) {
        assert HoldsSite(held, if met == [] then s else Filled(base, s));
      }
    }
  }

  /** One conflict, url by url: which site wins and which deletion is left, the form's list counting as the newer one;
      the disk's sites without a url stay, the form's do not enter. */
  lemma ConflictSettles(base: Json, disk: Cfg, mem: Cfg, u: string)
    requires u != ""
    ensures var m := SitesOf(MergeOnConflict(base, disk, mem));
      && UniqueUrls(m.sites) && ByUrls(m.tombs)
      && Settled(base, disk.sites, mem.sites, disk.deleted + mem.deleted, true, u, m)
      && Nameless(m.sites) == AllFilled(base, Nameless(disk.sites))
  {
    MergeSettles(base, disk.sites, mem.sites, disk.deleted + mem.deleted, true, u);
    NamelessStay(base, disk.sites, mem.sites, disk.deleted + mem.deleted, true);
  }

  // ---------------------------------------------------------------- runs

  lemma RetainsSelf(c: Cfg)
    ensures Retains(c, c)
  {
  }

  lemma OpenKeeps(base: Json, w: World, id: nat, data: Cfg)
    requires Inv(base, w) && Enabled(w, Open(id, data))
    ensures Inv(base, Next(base, w, Open(id, data)))
  {
    RetainsSelf(data);
  }

  lemma WriteKeeps(base: Json, w: World, cfg: Cfg, clients: map<nat, Client>)
    requires Inv(base, w) && cfg.revision == Disk(w).revision
    requires forall id :: id in clients ==> id in w.clients && clients[id] == w.clients[id]
    ensures Inv(base, World(w.versions + [Bumped(cfg)], clients))
  {
    forall id | id in clients ensures clients[id].basis in w.versions + [Bumped(cfg)] {
      assert clients[id].basis in w.versions;
    }
  }

  /** A form that is based on the file again and holds what it should. */
  lemma RebasedKeeps(base: Json, w: World, id: nat, c: Client)
    requires Inv(base, w) && c.basis == Disk(w) && c.working.revision == c.basis.revision && ClientOk(base, c)
    ensures Inv(base, w.(clients := w.clients[id := c]))
  {
  }

  lemma ConflictKeeps(base: Json, w: World, id: nat)
    requires Inv(base, w) && Enabled(w, TrySave(id)) && !Accepted(w, id)
    ensures Inv(base, Next(base, w, TrySave(id)))
  {
    var c := w.clients[id];
    MergeClientOk(base, Disk(w), c);
    MergeKeepsFields(base, Disk(w), c.working);
    RebasedKeeps(base, w, id, Client(c.start, Disk(w), MergeOnConflict(base, Disk(w), c.working), c.met + [Disk(w)]));
  }

  lemma StepKeeps(base: Json, w: World, a: Action)
    requires Inv(base, w) && Enabled(w, a)
    ensures Inv(base, Next(base, w, a))
  {
    match a
    case Open(id, data) => OpenKeeps(base, w, id, data);
    case Update(data) => WriteKeeps(base, w, data, w.clients);
    case TrySave(id) =>
      if Accepted(w, id) {
        assert ClientOk(base, w.clients[id]);
        WriteKeeps(base, w, w.clients[id].working, w.clients - {id});
      } else {
        ConflictKeeps(base, w, id);
      }
  }

  lemma BasisIsDisk(w: World, id: nat)
    requires Ordered(w) && id in w.clients && Accepted(w, id)
    ensures w.clients[id].basis == Disk(w)
  {
    var i :| 0 <= i < |w.versions| && w.versions[i] == w.clients[id].basis;
    assert w.versions[|w.versions| - 1].revision == w.versions[i].revision;
  }

  /** Compare and swap: every write raises the revision, and an accepted save replaces exactly the version the
      form was last based on. */
  lemma AcceptedSaveReplacesItsBasis(base: Json, w: World, a: Action)
    requires Ordered(w) && Enabled(w, a)
    ensures |Next(base, w, a).versions| > |w.versions| ==> Disk(Next(base, w, a)).revision == Disk(w).revision + 1
    ensures |Next(base, w, a).versions| == |w.versions| ==> Disk(Next(base, w, a)) == Disk(w)
    ensures a.TrySave? && Accepted(w, a.id) ==> w.clients[a.id].basis == Disk(w)
  {
    if a.TrySave? && Accepted(w, a.id) { BasisIsDisk(w, a.id); }
  }

  /** What a form that saves `saved` over the version `d` has kept.  It undoes nothing `d` holds for others; it loses
      no name, site or deletion it opened with; every setting it edited has the form's value; the names of its readers
      are exactly those it opened with and those that entered by its conflicts; a site nothing beats has the form's
      settings; and, once merged with `d`, it loses no site and no deletion of `d` either. */
  ghost predicate LosesNothing(base: Json, c: Client, d: Cfg, saved: Cfg) {
    && Carries(d, saved) && Retains(c.start, saved) && FormKept(base, c.start, c.met, saved)
    && (forall x :: Listed(saved.devices, x) <==> Listed(c.start.devices, x) || Entered(base, c.start, c.met, x))
    && (if c.met == [] then saved == Bumped(c.start) else c.met[|c.met| - 1] == d && SitesKept(d, saved))
  }

  /** A GUI save that succeeds, after any number of conflicts with any writers, keeps the replaced version's
      Watch queue, push stamps, primary names and deletions, and everything the form had. */
  lemma GuiSaveLosesNothing(base: Json, w: World, id: nat)
    requires Inv(base, w) && Enabled(w, TrySave(id)) && Accepted(w, id)
    ensures LosesNothing(base, w.clients[id], Disk(w), Disk(Next(base, w, TrySave(id))))
  {
    AcceptedSaveReplacesItsBasis(base, w, TrySave(id));
    var c := w.clients[id];
    assert ClientOk(base, c);
    forall x ensures Listed(c.working.devices, x) <==> Listed(c.start.devices, x) || Entered(base, c.start, c.met, x) {
      HeldNames(base, c.start, c.met, x);
    }
    HeldIsKept(base, c.start, c.met);
    BumpedIsKept(base, c.start, c.met, c.working);
  }

  ghost predicate StepAt(base: Json, ws: seq<World>, acts: seq<Action>, i: nat)
    requires |ws| == |acts| + 1 && i < |acts|
  {
    Enabled(ws[i], acts[i]) && ws[i + 1] == Next(base, ws[i], acts[i])
  }

  /** Any interleaving, from any one file and no open form. */
  ghost predicate Run(base: Json, ws: seq<World>, acts: seq<Action>) {
    && |ws| == |acts| + 1 && |ws[0].versions| == 1 && ws[0].clients == map[]
    && forall i {:trigger StepAt(base, ws, acts, i)} :: 0 <= i < |acts| ==> StepAt(base, ws, acts, i)
  }

  lemma {:induction false} RunKeeps(base: Json, ws: seq<World>, acts: seq<Action>, n: nat)
    requires Run(base, ws, acts) && n <= |acts|
    ensures Inv(base, ws[n])
  {
    if n > 0 {
      RunKeeps(base, ws, acts, n - 1);
      assert StepAt(base, ws, acts, n - 1);
      StepKeeps(base, ws[n - 1], acts[n - 1]);
    }
  }

  /** Over whole runs: the compare-and-swap and the GUI guarantee together. */
  lemma SavesNeverLoseUpdates(base: Json, ws: seq<World>, acts: seq<Action>, n: nat)
    requires Run(base, ws, acts) && n < |acts| && acts[n].TrySave?
    requires acts[n].id in ws[n].clients && ws[n].versions != [] && Accepted(ws[n], acts[n].id)
    ensures ws[n + 1].versions != [] && Disk(ws[n + 1]).revision == Disk(ws[n]).revision + 1
    ensures ws[n].clients[acts[n].id].basis == Disk(ws[n])
    ensures LosesNothing(base, ws[n].clients[acts[n].id], Disk(ws[n]), Disk(ws[n + 1]))
  {
    RunKeeps(base, ws, acts, n);
    assert StepAt(base, ws, acts, n);
    AcceptedSaveReplacesItsBasis(base, ws[n], acts[n]);
    GuiSaveLosesNothing(base, ws[n], acts[n].id);
  }
}
