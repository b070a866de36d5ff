/**
 The shared site list: default filling, merging by url with per-site update stamps, and
 deletion markers.
 */
module Sites {
  import opened Lww
  import opened Ordering
  import Wrappers
  import H = History

  type Stamp = H.Stamp

  // ---------------------------------------------------------------- default filling

  datatype Json = Scalar(text: string) | Object(fields: map<string, Json>)

  /** `_deep_merge`: `c` with every key it lacks taken from `d`, recursively. */
  function Fill(d: Json, c: Json): Json
    decreases d
  {
    if d.Object? && c.Object? then
      Object(map k | k in d.fields.Keys + c.fields.Keys ::
        if k !in c.fields then d.fields[k]
        else if k !in d.fields then c.fields[k]
        else Fill(d.fields[k], c.fields[k]))
    else c
  }

  /** Reports whether anything was filled in. */
  method DeepMerge(d: Json, c: Json) returns (result: Json, updated: bool)
    requires d.Object? && c.Object?
    ensures result == Fill(d, c)
    ensures updated <==> result != c
    decreases d
  {
    var fields := c.fields;
    updated := false;
    var todo := d.fields.Keys;
    while todo != {}
      invariant todo <= d.fields.Keys
      invariant fields.Keys == c.fields.Keys + (d.fields.Keys - todo)
      invariant forall k :: k in fields ==>
        fields[k] == if k in d.fields && k !in todo then Fill(d, c).fields[k] else c.fields[k]
      invariant updated <==> fields != c.fields
      decreases todo
    {
      var k :| k in todo;
      todo := todo - {k};
      var dv := d.fields[k];
      if k !in fields {
        fields := fields[k := dv];
        updated := true;
      } else if dv.Object? && fields[k].Object? {
        var merged, sub := DeepMerge(dv, fields[k]);
        if sub {
          fields := fields[k := merged];
          updated := true;
        }
      }
    }
    result := Object(fields);
    assert fields == Fill(d, c).fields;
  }

  lemma {:induction false} FillSelf(d: Json)
    ensures Fill(d, d) == d
  {
    if d.Object? {
      forall k | k in d.fields ensures Fill(d.fields[k], d.fields[k]) == d.fields[k] { FillSelf(d.fields[k]); }
      assert Fill(d, d).fields == d.fields;
    }
  }

  /** Filling is idempotent, at every depth. */
  lemma {:induction false} FillIdempotent(d: Json, c: Json)
    ensures Fill(d, Fill(d, c)) == Fill(d, c)
  {
    if d.Object? && c.Object? {
      var f := Fill(d, c);
      forall k | k in f.fields ensures Fill(d, f).fields[k] == f.fields[k] {
        if k in d.fields {
          if k in c.fields { FillIdempotent(d.fields[k], c.fields[k]); } else { FillSelf(d.fields[k]); }
        }
      }
      assert Fill(d, f).fields == f.fields;
    }
  }

  /** Filling never overrides: a value the site sets itself is kept, and an object is filled only from an object. */
  lemma FillKeeps(d: Json, c: Json, k: string)
    requires c.Object? && k in c.fields
    ensures Fill(d, c).Object? && k in Fill(d, c).fields
    ensures c.fields[k].Scalar? ==> Fill(d, c).fields[k] == c.fields[k]
    ensures c.fields[k].Object? ==>
              (Fill(d, c).fields[k] ==
               if d.Object? && k in d.fields && d.fields[k].Object? then Fill(d.fields[k], c.fields[k])
                   else c.fields[k])
  {
  }

  /** What stands at a path of keys. */
  function Lookup(j: Json, path: seq<string>): (r: Wrappers.Option<Json>)
    decreases |path|
  {
    if path == [] then Wrappers.Some(j)
    else if j.Object? && path[0] in j.fields then Lookup(j.fields[path[0]], path[1..])
    else Wrappers.None
  }

  /** On the way to `path` the object has a plain value, so nothing can stand there. */
  predicate CutOff(j: Json, path: seq<string>)
    decreases |path|
  {
    path != [] && (!j.Object? || (path[0] in j.fields && CutOff(j.fields[path[0]], path[1..])))
  }

  /** The same at every depth, exactly: a setting of the site stays where it is, an object keeps its keys and gets those
      of the default object in its place, and a place the site leaves open holds what the defaults have there. */
  lemma {:induction false} FillKeepsPaths(d: Json, c: Json, path: seq<string>)
    ensures var was, r, default := Lookup(c, path), Lookup(Fill(d, c), path), Lookup(d, path);
      && (was.Some? && was.value.Scalar? ==> r == was)
      && (was.Some? && was.value.Object? ==>
            && r.Some? && r.value.Object?
            && r.value.fields.Keys == was.value.fields.Keys +
                 if default.Some? && default.value.Object? then default.value.fields.Keys else {})
      && (was.None? ==> r == if CutOff(c, path) then Wrappers.None else default)
    decreases |path|
  {
    if path != [] && d.Object? && c.Object? && path[0] in c.fields && path[0] in d.fields {
      FillKeepsPaths(d.fields[path[0]], c.fields[path[0]], path[1..]);
    }
  }

  // ---------------------------------------------------------------- sites and deletion markers

  /** `url` is the normalised url key (blank when the site has none), `at` its update stamp. */
  datatype Site = Site(url: string, at: Stamp, body: Json)

  datatype SiteTomb = SiteTomb(url: string, at: Stamp)

  datatype Local = Local(sites: seq<Site>, tombs: seq<SiteTomb>)

  function Filled(base: Json, s: Site): Site {
    s.(body := Fill(base, s.body))
  }

  function IndexOf(b: seq<Site>, u: string): (i: nat)
    ensures i <= |b|
    ensures i < |b| ==> b[i].url == u
    ensures forall j :: 0 <= j < i ==> b[j].url != u
  {
    if b == [] || b[0].url == u then 0 else 1 + IndexOf(b[1..], u)
  }

  /** A local site replaces an earlier one with its url; a site without url is always its own. */
  function PutLocal(base: Json, b: seq<Site>, s: Site): seq<Site> {
    var i := IndexOf(b, s.url);
    if s.url == "" || i == |b| then b + [Filled(base, s)] else b[i := Filled(base, s)]
  }

  predicate Replaces(current: Site, incoming: Site, remoteWins: bool) {
    || (incoming.at.At? && H.TimeKey(incoming.at) > H.TimeKey(current.at))
    || (current.at.Blank? && incoming.at.Blank? && remoteWins)
  }

  function PutRemote(base: Json, b: seq<Site>, s: Site, remoteWins: bool): seq<Site> {
    var i := IndexOf(b, s.url);
    if s.url == "" then b
    else if i == |b| then b + [Filled(base, s)]
    else if Replaces(b[i], s, remoteWins) then b[i := Filled(base, s)]
    else b
  }

  function PutLocals(base: Json, ls: seq<Site>): seq<Site> {
    if ls == [] then [] else PutLocal(base, PutLocals(base, ls[..|ls| - 1]), ls[|ls| - 1])
  }

  function PutRemotes(base: Json, b: seq<Site>, rs: seq<Site>, remoteWins: bool): seq<Site> {
    if rs == [] then b
    else PutRemote(base, PutRemotes(base, b, rs[..|rs| - 1], remoteWins), rs[|rs| - 1], remoteWins)
  }

  function MergeSites(base: Json, ls: seq<Site>, rs: seq<Site>, remoteWins: bool): seq<Site> {
    PutRemotes(base, PutLocals(base, ls), rs, remoteWins)
  }

  /** The newest deletion per url; unusable markers are skipped. */
  function TombMap(ds: seq<SiteTomb>): map<string, nat> {
    if ds == [] then map[]
    else
      var m, d := TombMap(ds[..|ds| - 1]), ds[|ds| - 1];
      if d.url == "" || d.at.Blank? then m
      else if d.url !in m || d.at.key > m[d.url] then m[d.url := d.at.key]
      else m
  }

  function TombUrls(ds: seq<SiteTomb>): (us: seq<string>)
    ensures forall u :: u in us <==> u in TombMap(ds)
  {
    if ds == [] then []
    else
      var us, d := TombUrls(ds[..|ds| - 1]), ds[|ds| - 1];
      if d.url == "" || d.at.Blank? then us else us + [d.url]
  }

  /** `[m[u] for u in us if u in m]`. */
  function Listing(us: seq<string>, m: map<string, nat>): seq<SiteTomb> {
    if us == [] then []
    else
      var u := us[|us| - 1];
      Listing(us[..|us| - 1], m) + (if u in m then [SiteTomb(u, H.At(m[u]))] else [])
  }

  /** `merge_site_tombstones` on the concatenated groups: one marker per url, sorted by url. */
  function MergeTombs(ds: seq<SiteTomb>): seq<SiteTomb> {
    Listing(SortUnique(TombUrls(ds)), TombMap(ds))
  }

  predicate Outlives(s: Site, m: map<string, nat>) {
    s.url in m ==> s.at.At? && H.TimeKey(s.at) > m[s.url]
  }

  /** A site newer than its deletion is kept and uses the marker up; an older one goes. */
  function ApplyFold(sites: seq<Site>, m: map<string, nat>): (seq<Site>, map<string, nat>) {
    if sites == [] then ([], m)
    else
      var (kept, left) := ApplyFold(sites[..|sites| - 1], m);
      var s := sites[|sites| - 1];
      if Outlives(s, left) then (kept + [s], left - {s.url}) else (kept, left)
  }

  function ApplyTombs(sites: seq<Site>, ds: seq<SiteTomb>): Local {
    var (kept, left) := ApplyFold(sites, TombMap(ds));
    Local(kept, Listing(SortUnique(TombUrls(ds)), left))
  }

  /** The site half of a pull. */
  function Pull(base: Json, local: Local, rs: seq<Site>, ds: seq<SiteTomb>, remoteWins: bool): Local {
    var deleted := MergeTombs(local.tombs + ds);
    if rs == [] && deleted == [] then local
    else ApplyTombs(MergeSites(base, local.sites, rs, remoteWins), deleted)
  }

  // ---------------------------------------------------------------- the loops

  /** Key of the dictionary `merge_sites` fills: a url, or the identity of a site without one. */
  datatype Slot = ByUrl(url: string) | NoUrl(index: nat)

  /** `order` and `table` represent the site list `b`, using slots of the first `n` sites without url. */
  ghost predicate Represents(order: seq<Slot>, table: map<Slot, Site>, b: seq<Site>, n: nat) {
    && |order| == |b|
    && (forall i :: 0 <= i < |b| ==> order[i] in table && table[order[i]] == b[i])
    && (forall i :: 0 <= i < |b| ==>
          if b[i].url == "" then order[i].NoUrl? && order[i].index < n else order[i] == ByUrl(b[i].url))
    && (forall i, j :: 0 <= i < j < |order| ==> order[i] != order[j])
    && (forall k :: k in table ==> k in order)
  }

  lemma RepresentedIndex(order: seq<Slot>, table: map<Slot, Site>, b: seq<Site>, n: nat, u: string)
    requires Represents(order, table, b, n) && u != ""
    ensures ByUrl(u) in table <==> IndexOf(b, u) < |b|
    ensures IndexOf(b, u) < |b| ==> table[ByUrl(u)] == b[IndexOf(b, u)] && order[IndexOf(b, u)] == ByUrl(u)
  {
    if ByUrl(u) in table {
      var i :| 0 <= i < |order| && order[i] == ByUrl(u);
      assert b[i].url == u;
    }
  }

  lemma RepresentsReplace(order: seq<Slot>, table: map<Slot, Site>, b: seq<Site>, n: nat, i: nat, s: Site)
    requires Represents(order, table, b, n) && i < |b| && b[i].url == s.url != ""
    ensures Represents(order, table[ByUrl(s.url) := s], b[i := s], n)
  {
  }

  lemma RepresentsAppend(order: seq<Slot>, table: map<Slot, Site>, b: seq<Site>, n: nat, k: Slot, s: Site)
    requires Represents(order, table, b, n) && k !in table
    requires if s.url == "" then k.NoUrl? && k.index < n else k == ByUrl(s.url)
    ensures Represents(order + [k], table[k := s], b + [s], n)
  {
    forall i | 0 <= i < |order| ensures order[i] != k { assert order[i] in table; }
  }

  function SlotOf(s: Site, i: nat): Slot {
    if s.url == "" then NoUrl(i) else ByUrl(s.url)
  }

  function Ordered(order: seq<Slot>, table: map<Slot, Site>, k: Slot): seq<Slot> {
    if k in table then order else order + [k]
  }

  lemma LocalStep(base: Json, order: seq<Slot>, table: map<Slot, Site>, b: seq<Site>, i: nat, s: Site)
    requires Represents(order, table, b, i)
    ensures var k := SlotOf(s, i);
      Represents(Ordered(order, table, k), table[k := Filled(base, s)], PutLocal(base, b, s), i + 1)
  {
    var f := Filled(base, s);
    assert Represents(order, table, b, i + 1);
    if s.url == "" {
      assert NoUrl(i) !in order;
      RepresentsAppend(order, table, b, i + 1, NoUrl(i), f);
    } else {
      RepresentedIndex(order, table, b, i, s.url);
      if ByUrl(s.url) in table {
        RepresentsReplace(order, table, b, i + 1, IndexOf(b, s.url), f);
      } else {
        RepresentsAppend(order, table, b, i + 1, ByUrl(s.url), f);
      }
    }
  }

  lemma RemoteStep(base: Json, order: seq<Slot>, table: map<Slot, Site>, b: seq<Site>, n: nat, s: Site,
          remoteWins: bool)
    requires Represents(order, table, b, n) && s.url != ""
    ensures var k, f := ByUrl(s.url), Filled(base, s);
      if k !in table then Represents(order + [k], table[k := f], PutRemote(base, b, s, remoteWins), n)
      else if Replaces(table[k], s, remoteWins) then
          Represents(order, table[k := f], PutRemote(base, b, s, remoteWins), n)
      else b == PutRemote(base, b, s, remoteWins)
  {
    var f := Filled(base, s);
    RepresentedIndex(order, table, b, n, s.url);
    if ByUrl(s.url) !in table {
      RepresentsAppend(order, table, b, n, ByUrl(s.url), f);
    } else if Replaces(table[ByUrl(s.url)], s, remoteWins) {
      RepresentsReplace(order, table, b, n, IndexOf(b, s.url), f);
    }
  }

  method PutLocalsLoop(base: Json, ls: seq<Site>) returns (order: seq<Slot>, table: map<Slot, Site>)
    ensures Represents(order, table, PutLocals(base, ls), |ls|)
  {
    order, table := [], map[];
    for i := 0 to |ls|
      invariant Represents(order, table, PutLocals(base, ls[..i]), i)
    {
      assert ls[..i + 1][..i] == ls[..i];
      LocalStep(base, order, table, PutLocals(base, ls[..i]), i, ls[i]);
      var key := SlotOf(ls[i], i);
      if key !in table { order := order + [key]; }
      table := table[key := Filled(base, ls[i])];
    }
    assert ls[..|ls|] == ls;
  }

  method PutRemotesLoop(base: Json, order0: seq<Slot>, table0: map<Slot, Site>, ghost start: seq<Site>, n: nat,
          rs: seq<Site>, remoteWins: bool)
    returns (order: seq<Slot>, table: map<Slot, Site>)
    requires Represents(order0, table0, start, n)
    ensures Represents(order, table, PutRemotes(base, start, rs, remoteWins), n)
  {
    order, table := order0, table0;
    for i := 0 to |rs|
      invariant Represents(order, table, PutRemotes(base, start, rs[..i], remoteWins), n)
    {
      assert rs[..i + 1][..i] == rs[..i];
      if rs[i].url == "" { continue; }
      RemoteStep(base, order, table, PutRemotes(base, start, rs[..i], remoteWins), n, rs[i], remoteWins);
      var key := ByUrl(rs[i].url);
      if key !in table {
        order, table := order + [key], table[key := Filled(base, rs[i])];
      } else if Replaces(table[key], rs[i], remoteWins) {
        table := table[key := Filled(base, rs[i])];
      }
    }
    assert rs[..|rs|] == rs;
  }

  method MergeSitesLoop(base: Json, ls: seq<Site>, rs: seq<Site>, remoteWins: bool) returns (merged: seq<Site>)
    ensures merged == MergeSites(base, ls, rs, remoteWins)
  {
    var order, table := PutLocalsLoop(base, ls);
    order, table := PutRemotesLoop(base, order, table, PutLocals(base, ls), |ls|, rs, remoteWins);
    ghost var b := PutRemotes(base, PutLocals(base, ls), rs, remoteWins);
    merged := [];
    for i := 0 to |order|
      invariant merged == b[..i]
    {
      merged := merged + [table[order[i]]];
    }
  }

  lemma TombsAppend(ds: seq<SiteTomb>, d: SiteTomb)
    ensures TombMap(ds + [d]) ==
      if d.url == "" || d.at.Blank? then TombMap(ds)
      else if d.url !in TombMap(ds) || d.at.key > TombMap(ds)[d.url] then TombMap(ds)[d.url := d.at.key]
          else TombMap(ds)
    ensures TombUrls(ds + [d]) == if d.url == "" || d.at.Blank? then TombUrls(ds) else TombUrls(ds) + [d.url]
  {
    assert (ds + [d])[..|ds|] == ds;
  }

  /** The dictionary and the urls met after the markers `done`. */
  ghost predicate TombsTo(done: seq<SiteTomb>, table: map<string, nat>, urls: seq<string>) {
    table == TombMap(done) && urls == TombUrls(done)
  }

  lemma TombsStep(done: seq<SiteTomb>, table: map<string, nat>, urls: seq<string>, d: SiteTomb)
    requires TombsTo(done, table, urls)
    ensures d.url == "" || d.at.Blank? ==> TombsTo(done + [d], table, urls)
    ensures d.url != "" && d.at.At? ==>
              TombsTo(done + [d], if d.url !in table || d.at.key > table[d.url] then table[d.url := d.at.key]
                  else table, urls + [d.url])
  {
    TombsAppend(done, d);
  }

  method MergeTombsLoop(groups: seq<seq<SiteTomb>>) returns (r: seq<SiteTomb>)
    ensures r == MergeTombs(Flatten(groups))
  {
    var table: map<string, nat> := map[];
    var urls: seq<string> := [];
    for g := 0 to |groups|
      invariant TombsTo(Flatten(groups[..g]), table, urls)
    {
      var group := groups[g];
      ghost var before := Flatten(groups[..g]);
      assert before + group[..0] == before;
      for i := 0 to |group|
        invariant TombsTo(before + group[..i], table, urls)
      {
        var d := group[i];
        TombsStep(before + group[..i], table, urls, d);
        assert before + group[..i + 1] == before + group[..i] + [d];
        if d.url != "" && d.at.At? {
          if d.url !in table || d.at.key > table[d.url] { table := table[d.url := d.at.key]; }
          urls := urls + [d.url];
        }
      }
      assert group[..|group|] == group && groups[..g + 1][..g] == groups[..g];
    }
    assert groups[..|groups|] == groups;
    r := Listing(SortUnique(urls), table);
  }

  function Flatten(groups: seq<seq<SiteTomb>>): seq<SiteTomb> {
    if groups == [] then [] else Flatten(groups[..|groups| - 1]) + groups[|groups| - 1]
  }

  method ApplyTombsLoop(sites: seq<Site>, ds: seq<SiteTomb>) returns (r: Local)
    ensures r == ApplyTombs(sites, ds)
  {
    var tombs := TombMap(ds);
    var kept: seq<Site> := [];
    for i := 0 to |sites|
      invariant (kept, tombs) == ApplyFold(sites[..i], TombMap(ds))
    {
      var s := sites[i];
      assert sites[..i + 1][..i] == sites[..i];
      if s.url !in tombs {
        kept := kept + [s];
        assert tombs - {s.url} == tombs;
      } else if s.at.At? && H.TimeKey(s.at) > tombs[s.url] {
        kept := kept + [s];
        tombs := tombs - {s.url};
      }
    }
    assert sites[..|sites|] == sites;
    r := Local(kept, Listing(SortUnique(TombUrls(ds)), tombs));
  }
}
