/**
 What merging the site list means: a per-url join with the deletion markers, urls kept
 unique and in local-first order, and a pull that changes nothing when repeated.
 */
module SiteProofs {
  import opened Wrappers
  import opened Lww
  import opened Ordering
  import opened Sites
  import H = History

  ghost predicate UniqueUrls(b: seq<Site>) {
    forall i, j :: 0 <= i < j < |b| && b[i].url == b[j].url ==> b[i].url == ""
  }

  function Find(b: seq<Site>, u: string): Option<Site> {
    var i := IndexOf(b, u);
    if i < |b| then Some(b[i]) else None
  }

  /** What the remote list makes of one url, from the site currently held for it. */
  function FoldUrl(base: Json, cur: Option<Site>, rs: seq<Site>, u: string, remoteWins: bool): Option<Site> {
    if rs == [] then cur
    else
      var c, r := FoldUrl(base, cur, rs[..|rs| - 1], u, remoteWins), rs[|rs| - 1];
      if r.url != u then c
      else if c.None? || Replaces(c.value, r, remoteWins) then Some(Filled(base, r))
      else c
  }

  // ---------------------------------------------------------------- shape of a merge

  lemma FindDetermined(b: seq<Site>, i: nat, u: string)
    requires UniqueUrls(b) && i < |b| && b[i].url == u != ""
    ensures Find(b, u) == Some(b[i])
  {
  }

  lemma PutRemoteUrls(base: Json, b: seq<Site>, s: Site, remoteWins: bool)
    requires UniqueUrls(b)
    ensures var r := PutRemote(base, b, s, remoteWins);
      UniqueUrls(r) && |b| <= |r| <= |b| + 1
      && (forall i :: 0 <= i < |b| ==> r[i].url == b[i].url && (b[i].url == "" ==> r[i] == b[i]))
  {
  }

  lemma PutRemoteFind(base: Json, b: seq<Site>, s: Site, remoteWins: bool, u: string)
    requires UniqueUrls(b) && UniqueUrls(PutRemote(base, b, s, remoteWins)) && u != ""
    ensures Find(PutRemote(base, b, s, remoteWins), u) ==
      if s.url == u && (Find(b, u).None? || Replaces(Find(b, u).value, s, remoteWins)) then Some(Filled(base, s))
          else Find(b, u)
  {
    var r, i := PutRemote(base, b, s, remoteWins), IndexOf(b, u);
    if s.url == u {
      assert r[i].url == u;
      FindDetermined(r, i, u);
    } else if i < |b| {
      FindDetermined(r, i, u);
    }
  }

  lemma PutRemoteShape(base: Json, b: seq<Site>, s: Site, remoteWins: bool, u: string)
    requires UniqueUrls(b)
    ensures var r := PutRemote(base, b, s, remoteWins);
      UniqueUrls(r) && |b| <= |r| <= |b| + 1
      && (forall i :: 0 <= i < |b| ==> r[i].url == b[i].url && (b[i].url == "" ==> r[i] == b[i]))
      && (u != "" ==> Find(r, u) == FoldUrl(base, Find(b, u), [s], u, remoteWins))
  {
    PutRemoteUrls(base, b, s, remoteWins);
    if u != "" {
      PutRemoteFind(base, b, s, remoteWins, u);
      assert [s][..0] == [];
    }
  }

  lemma FoldUrlStep(base: Json, cur: Option<Site>, rs: seq<Site>, u: string, remoteWins: bool)
    requires rs != []
    ensures FoldUrl(base, cur, rs, u, remoteWins) ==
      FoldUrl(base, FoldUrl(base, cur, rs[..|rs| - 1], u, remoteWins), [rs[|rs| - 1]], u, remoteWins)
  {
    assert [rs[|rs| - 1]][..0] == [];
  }

  lemma {:induction false} PutRemotesShape(base: Json, b: seq<Site>, rs: seq<Site>, remoteWins: bool, u: string)
    requires UniqueUrls(b)
    ensures var r := PutRemotes(base, b, rs, remoteWins);
      UniqueUrls(r) && |b| <= |r|
      && (forall i :: 0 <= i < |b| ==> r[i].url == b[i].url && (b[i].url == "" ==> r[i] == b[i]))
      && (u != "" ==> Find(r, u) == FoldUrl(base, Find(b, u), rs, u, remoteWins))
  {
    if rs != [] {
      PutRemotesShape(base, b, rs[..|rs| - 1], remoteWins, u);
      PutRemoteShape(base, PutRemotes(base, b, rs[..|rs| - 1], remoteWins), rs[|rs| - 1], remoteWins, u);
      if u != "" { FoldUrlStep(base, Find(b, u), rs, u, remoteWins); }
    }
  }

  lemma {:induction false} PutLocalsUnique(base: Json, ls: seq<Site>)
    ensures UniqueUrls(PutLocals(base, ls))
    ensures forall s :: s in PutLocals(base, ls) ==> Filled(base, s) == s
  {
    if ls != [] {
      PutLocalsUnique(base, ls[..|ls| - 1]);
      FillIdempotent(base, ls[|ls| - 1].body);
    }
  }

  function Urls(b: seq<Site>): seq<string> { seq(|b|, i requires 0 <= i < |b| => b[i].url) }

  /** Urls in order of first appearance after those of `start`. */
  function Appended(start: seq<string>, us: seq<string>): seq<string> {
    if us == [] then start
    else
      var r, u := Appended(start, us[..|us| - 1]), us[|us| - 1];
      if u == "" || u in r then r else r + [u]
  }

  /** Local order first, then the urls only the remote list has, in their order of appearance. */
  lemma {:induction false} LocalFirstOrder(base: Json, b: seq<Site>, rs: seq<Site>, remoteWins: bool)
    ensures Urls(PutRemotes(base, b, rs, remoteWins)) == Appended(Urls(b), Urls(rs))
  {
    if rs != [] {
      LocalFirstOrder(base, b, rs[..|rs| - 1], remoteWins);
      var c, s := PutRemotes(base, b, rs[..|rs| - 1], remoteWins), rs[|rs| - 1];
      assert Urls(rs)[..|rs| - 1] == Urls(rs[..|rs| - 1]);
      if IndexOf(c, s.url) < |c| {
        assert Urls(c)[IndexOf(c, s.url)] == s.url;
        assert Urls(PutRemote(base, c, s, remoteWins)) == Urls(c);
      } else {
        assert s.url !in Urls(c);
        if s.url != "" { assert Urls(c + [Filled(base, s)]) == Urls(c) + [s.url]; }
      }
    }
  }

  // ---------------------------------------------------------------- folding the remote list is idempotent

  lemma {:induction false} FoldAbove(base: Json, cur: Option<Site>, rs: seq<Site>, u: string, remoteWins: bool)
    ensures var y := FoldUrl(base, cur, rs, u, remoteWins);
      && (cur.Some? ==> y.Some? && H.TimeKey(cur.value.at) <= H.TimeKey(y.value.at))
      && (forall i :: 0 <= i < |rs| && rs[i].url == u ==>
            y.Some? && H.TimeKey(rs[i].at) <= H.TimeKey(y.value.at))
  {
    if rs != [] { FoldAbove(base, cur, rs[..|rs| - 1], u, remoteWins); }
  }

  lemma {:induction false} FoldDatedStable(base: Json, y: Site, rs: seq<Site>, u: string, remoteWins: bool)
    requires y.at.At?
    requires forall i :: 0 <= i < |rs| && rs[i].url == u ==> H.TimeKey(rs[i].at) <= H.TimeKey(y.at)
    ensures FoldUrl(base, Some(y), rs, u, remoteWins) == Some(y)
  {
    if rs != [] { FoldDatedStable(base, y, rs[..|rs| - 1], u, remoteWins); }
  }

  /** The last unstamped remote site for `u`. */
  function LastBlank(rs: seq<Site>, u: string): Option<Site> {
    if rs == [] then None
    else if rs[|rs| - 1].url == u && rs[|rs| - 1].at.Blank? then Some(rs[|rs| - 1])
    else LastBlank(rs[..|rs| - 1], u)
  }

  lemma {:induction false} FoldBlank(base: Json, y: Site, rs: seq<Site>, u: string, remoteWins: bool)
    requires y.at.Blank?
    requires forall i :: 0 <= i < |rs| && rs[i].url == u ==> H.TimeKey(rs[i].at) == 0
    ensures FoldUrl(base, Some(y), rs, u, remoteWins) ==
      if remoteWins && LastBlank(rs, u).Some? then Some(Filled(base, LastBlank(rs, u).value)) else Some(y)
    ensures LastBlank(rs, u).Some? ==> LastBlank(rs, u).value.at.Blank?
  {
    if rs != [] { FoldBlank(base, y, rs[..|rs| - 1], u, remoteWins); }
  }

  lemma {:induction false} BlankResultIsLastBlank(base: Json, cur: Option<Site>, rs: seq<Site>, u: string,
          remoteWins: bool)
    requires remoteWins && LastBlank(rs, u).Some?
    requires FoldUrl(base, cur, rs, u, remoteWins).Some? && FoldUrl(base, cur, rs, u, remoteWins).value.at.Blank?
    ensures FoldUrl(base, cur, rs, u, remoteWins) == Some(Filled(base, LastBlank(rs, u).value))
  {
    var init, r := rs[..|rs| - 1], rs[|rs| - 1];
    if r.url == u && r.at.Blank? {
      FoldAbove(base, cur, init, u, remoteWins);
    } else {
      BlankResultIsLastBlank(base, cur, init, u, remoteWins);
    }
  }

  lemma FoldIdempotent(base: Json, cur: Option<Site>, rs: seq<Site>, u: string, remoteWins: bool)
    requires FoldUrl(base, cur, rs, u, remoteWins).Some?
    ensures var y := FoldUrl(base, cur, rs, u, remoteWins);
      FoldUrl(base, y, rs, u, remoteWins) == y
  {
    var y := FoldUrl(base, cur, rs, u, remoteWins).value;
    FoldAbove(base, cur, rs, u, remoteWins);
    if y.at.At? {
      FoldDatedStable(base, y, rs, u, remoteWins);
    } else {
      FoldBlank(base, y, rs, u, remoteWins);
      if remoteWins && LastBlank(rs, u).Some? { BlankResultIsLastBlank(base, cur, rs, u, remoteWins); }
    }
  }

  /** Starting from nothing, the fold's stamp is the stamp of one of the remote sites. */
  lemma {:induction false} FoldFromNothing(base: Json, rs: seq<Site>, u: string, remoteWins: bool)
    requires FoldUrl(base, None, rs, u, remoteWins).Some?
    ensures exists i :: 0 <= i < |rs| && rs[i].url == u && rs[i].at == FoldUrl(base, None, rs, u, remoteWins).value.at
  {
    var init, r := rs[..|rs| - 1], rs[|rs| - 1];
    if FoldUrl(base, None, rs, u, remoteWins) != Some(Filled(base, r)) || r.url != u {
      FoldFromNothing(base, init, u, remoteWins);
      var i :| 0 <= i < |init| && init[i].url == u && init[i].at == FoldUrl(base, None, init, u, remoteWins).value.at;
      assert rs[i].url == u;
    } else {
      assert rs[|rs| - 1].url == u;
    }
  }

  // ---------------------------------------------------------------- deletion markers

  function TombMark(ds: seq<SiteTomb>, u: string): Mark {
    if u in TombMap(ds) then Dead(TombMap(ds)[u] + 1) else Unknown
  }

  lemma {:induction false} TombMarkConcat(xs: seq<SiteTomb>, ys: seq<SiteTomb>, u: string)
    ensures TombMark(xs + ys, u) == Join(TombMark(xs, u), TombMark(ys, u))
  {
    if ys == [] {
      assert xs + ys == xs;
    } else {
      assert (xs + ys)[..|xs + ys| - 1] == xs + ys[..|ys| - 1];
      TombMarkConcat(xs, ys[..|ys| - 1], u);
    }
  }

  lemma {:induction false} NamedTombs(ds: seq<SiteTomb>)
    ensures "" !in TombMap(ds)
  {
    if ds != [] { NamedTombs(ds[..|ds| - 1]); }
  }

  lemma {:induction false} ListingMap(us: seq<string>, m: map<string, nat>)
    requires "" !in m
    ensures TombMap(Listing(us, m)) == map u | u in us && u in m :: m[u]
  {
    if us != [] {
      var init, u := us[..|us| - 1], us[|us| - 1];
      ListingMap(init, m);
      assert us == init + [u];
      var l := Listing(init, m);
      if u in m {
        assert (l + [SiteTomb(u, H.At(m[u]))])[..|l|] == l;
      } else {
        assert Listing(us, m) == l;
      }
    }
  }

  /** `merge_site_tombstones` keeps the newest deletion of every url and nothing else. */
  lemma MergeTombsKeepsMarks(ds: seq<SiteTomb>)
    ensures TombMap(MergeTombs(ds)) == TombMap(ds)
  {
    NamedTombs(ds);
    SortUniqueSorted(TombUrls(ds));
    ListingMap(SortUnique(TombUrls(ds)), TombMap(ds));
  }

  function Present(us: seq<string>, m: map<string, nat>): seq<string> {
    if us == [] then []
    else
      var u := us[|us| - 1];
      Present(us[..|us| - 1], m) + (if u in m then [u] else [])
  }

  lemma {:induction false} PresentSorted(us: seq<string>, m: map<string, nat>)
    requires Sorted(us)
    ensures Sorted(Present(us, m))
    ensures forall u :: u in Present(us, m) <==> u in us && u in m
  {
    if us != [] {
      var init, u := us[..|us| - 1], us[|us| - 1];
      PresentSorted(init, m);
      assert us == init + [u];
      var p := Present(init, m);
      forall i | 0 <= i < |p| ensures Less(p[i], u) {
        assert p[i] in p;
        var j :| 0 <= j < |init| && init[j] == p[i];
        assert us[j] == p[i];
      }
    }
  }

  lemma {:induction false} ListingPresent(us: seq<string>, m: map<string, nat>)
    ensures Listing(us, m) == Listing(Present(us, m), m)
  {
    if us != [] {
      var init, u := us[..|us| - 1], us[|us| - 1];
      ListingPresent(init, m);
      var p := Present(init, m);
      if u in m {
        assert (p + [u])[..|p|] == p && (p + [u])[|p|] == u;
      } else {
        assert Present(us, m) == p;
      }
    }
  }

  /** A marker list is determined by its map. */
  lemma ListingDetermined(us: seq<string>, vs: seq<string>, m: map<string, nat>)
    requires Sorted(us) && Sorted(vs)
    requires forall u :: u in m ==> u in us && u in vs
    ensures Listing(us, m) == Listing(vs, m)
  {
    PresentSorted(us, m);
    PresentSorted(vs, m);
    SortedDetermined(Present(us, m), Present(vs, m));
    ListingPresent(us, m);
    ListingPresent(vs, m);
  }

  // ---------------------------------------------------------------- applying the markers

  function Kept(sites: seq<Site>, m: map<string, nat>): seq<Site> {
    if sites == [] then []
    else
      var s := sites[|sites| - 1];
      Kept(sites[..|sites| - 1], m) + (if Outlives(s, m) then [s] else [])
  }

  ghost function UsedUp(sites: seq<Site>, m: map<string, nat>): set<string> {
    set i | 0 <= i < |sites| && Outlives(sites[i], m) :: sites[i].url
  }

  lemma {:induction false} ApplyUnique(sites: seq<Site>, m: map<string, nat>)
    requires UniqueUrls(sites) && "" !in m
    ensures ApplyFold(sites, m) == (Kept(sites, m), m - UsedUp(sites, m))
  {
    if sites == [] {
      assert m - UsedUp(sites, m) == m;
    } else {
      var init, s := sites[..|sites| - 1], sites[|sites| - 1];
      ApplyUnique(init, m);
      assert s.url != "" ==> s.url !in UsedUp(init, m);
      assert Outlives(s, m - UsedUp(init, m)) <==> Outlives(s, m);
      assert UsedUp(sites, m) == UsedUp(init, m) + (if Outlives(s, m) then {s.url} else {}) by {
        forall u ensures u in UsedUp(sites, m) <==> u in UsedUp(init, m) || (Outlives(s, m) && u == s.url) {
          if u in UsedUp(init, m) {
            var i :| 0 <= i < |init| && Outlives(init[i], m) && init[i].url == u;
            assert Outlives(sites[i], m) && sites[i].url == u;
          }
          if Outlives(s, m) && u == s.url { assert sites[|sites| - 1].url == u; }
          if u in UsedUp(sites, m) {
            var i :| 0 <= i < |sites| && Outlives(sites[i], m) && sites[i].url == u;
            if i < |init| { assert init[i].url == u; }
          }
        }
      }
      assert Kept(sites, m) == if Outlives(s, m) then Kept(init, m) + [s] else Kept(init, m);
      assert m - UsedUp(sites, m) == if Outlives(s, m) then (m - UsedUp(init, m)) - {s.url} else m - UsedUp(init, m);
    }
  }

  lemma {:induction false} KeptMembers(sites: seq<Site>, m: map<string, nat>)
    requires UniqueUrls(sites)
    ensures UniqueUrls(Kept(sites, m))
    ensures forall s :: s in Kept(sites, m) <==> s in sites && Outlives(s, m)
  {
    if sites != [] {
      var init, s := sites[..|sites| - 1], sites[|sites| - 1];
      KeptMembers(init, m);
      assert sites == init + [s];
      var k := Kept(init, m);
      forall i | 0 <= i < |k| && k[i].url == s.url ensures s.url == "" {
        assert k[i] in k;
        var j :| 0 <= j < |init| && init[j] == k[i];
        assert sites[j].url == sites[|sites| - 1].url;
      }
    }
  }

  lemma FindMember(b: seq<Site>, u: string, s: Site)
    requires UniqueUrls(b) && u != ""
    ensures Find(b, u) == Some(s) <==> s in b && s.url == u
  {
    if s in b && s.url == u {
      var i :| 0 <= i < |b| && b[i] == s;
      FindDetermined(b, i, u);
    }
  }

  lemma KeptFind(sites: seq<Site>, m: map<string, nat>, u: string)
    requires UniqueUrls(sites) && u != ""
    ensures UniqueUrls(Kept(sites, m))
    ensures Find(Kept(sites, m), u) ==
      if Find(sites, u).Some? && Outlives(Find(sites, u).value, m) then Find(sites, u) else None
    ensures u in UsedUp(sites, m) <==> Find(Kept(sites, m), u).Some?
  {
    KeptMembers(sites, m);
    var f := Find(Kept(sites, m), u);
    if f.Some? {
      FindMember(Kept(sites, m), u, f.value);
      FindMember(sites, u, f.value);
      var i :| 0 <= i < |sites| && sites[i] == f.value;
      assert Outlives(sites[i], m);
    }
    if Find(sites, u).Some? {
      FindMember(sites, u, Find(sites, u).value);
      FindMember(Kept(sites, m), u, Find(sites, u).value);
    }
    if u in UsedUp(sites, m) {
      var i :| 0 <= i < |sites| && Outlives(sites[i], m) && sites[i].url == u;
      FindMember(Kept(sites, m), u, sites[i]);
    }
  }

  // ---------------------------------------------------------------- a pull is a join

  /** A blank or unreadable update stamp counts as the oldest instant. */
  function SiteMark(o: Option<Site>): Mark {
    if o.None? then Unknown else Live(H.TimeKey(o.value.at) + 1)
  }

  function SiteMarks(rs: seq<Site>, u: string): Mark {
    if rs == [] then Unknown
    else Join(SiteMarks(rs[..|rs| - 1], u), if rs[|rs| - 1].url == u then SiteMark(Some(rs[|rs| - 1])) else Unknown)
  }

  /** The last site listed for `u`; earlier ones are overridden whatever their stamp. */
  function LastSite(ls: seq<Site>, u: string): Option<Site> {
    if ls == [] then None
    else if ls[|ls| - 1].url == u then Some(ls[|ls| - 1])
    else LastSite(ls[..|ls| - 1], u)
  }

  /** Everything a PC holds about one url: its site, its deletion marker, or both. */
  function UrlMark(l: Local, u: string): Mark {
    Join(SiteMark(LastSite(l.sites, u)), TombMark(l.tombs, u))
  }

  lemma {:induction false} FoldIsJoin(base: Json, cur: Option<Site>, rs: seq<Site>, u: string, remoteWins: bool)
    ensures SiteMark(FoldUrl(base, cur, rs, u, remoteWins)) == Join(SiteMark(cur), SiteMarks(rs, u))
  {
    if rs != [] {
      FoldIsJoin(base, cur, rs[..|rs| - 1], u, remoteWins);
      var m := if rs[|rs| - 1].url == u then SiteMark(Some(rs[|rs| - 1])) else Unknown;
      JoinIsLeastUpperBound(SiteMark(cur), SiteMarks(rs[..|rs| - 1], u), m);
    }
  }

  lemma {:induction false} PutLocalsFind(base: Json, ls: seq<Site>, u: string)
    requires u != ""
    ensures Find(PutLocals(base, ls), u) ==
      if LastSite(ls, u).Some? then Some(Filled(base, LastSite(ls, u).value)) else None
    ensures UniqueUrls(PutLocals(base, ls))
  {
    if ls != [] {
      var init, s := ls[..|ls| - 1], ls[|ls| - 1];
      PutLocalsFind(base, init, u);
      PutLocalsUnique(base, ls);
      var b, r := PutLocals(base, init), PutLocals(base, ls);
      assert forall i :: 0 <= i < |b| ==> r[i].url == b[i].url;
      if s.url == u {
        FindDetermined(r, if IndexOf(b, u) < |b| then IndexOf(b, u) else |b|, u);
      } else if IndexOf(b, u) < |b| {
        FindDetermined(r, IndexOf(b, u), u);
      }
    }
  }

  lemma {:induction false} LastIsFind(b: seq<Site>, u: string)
    requires UniqueUrls(b) && u != ""
    ensures LastSite(b, u) == Find(b, u)
  {
    if b != [] {
      var init := b[..|b| - 1];
      LastIsFind(init, u);
      if b[|b| - 1].url == u {
        FindDetermined(b, |b| - 1, u);
      } else if IndexOf(init, u) < |init| {
        FindDetermined(b, IndexOf(init, u), u);
      }
    }
  }

  lemma ApplyIsJoin(b: seq<Site>, ds: seq<SiteTomb>, u: string)
    requires UniqueUrls(b) && u != ""
    ensures var r := ApplyTombs(b, ds);
      && UrlMark(r, u) == Join(SiteMark(Find(b, u)), TombMark(ds, u))
      && (LastSite(r.sites, u).None? || TombMark(r.tombs, u).Unknown?)
  {
    AppliedTombs(b, ds);
    KeptFind(b, TombMap(ds), u);
    LastIsFind(Kept(b, TombMap(ds)), u);
  }

  lemma MergeIsJoin(base: Json, ls: seq<Site>, rs: seq<Site>, remoteWins: bool, u: string)
    requires u != ""
    ensures var b := MergeSites(base, ls, rs, remoteWins);
      && UniqueUrls(b)
      && SiteMark(Find(b, u)) == Join(SiteMark(LastSite(ls, u)), SiteMarks(rs, u))
  {
    var locals := PutLocals(base, ls);
    PutLocalsFind(base, ls, u);
    PutRemotesShape(base, locals, rs, remoteWins, u);
    FoldIsJoin(base, Find(locals, u), rs, u, remoteWins);
  }

  lemma JoinRegroup(a: Mark, b: Mark, c: Mark, d: Mark)
    ensures Join(Join(a, b), Join(c, d)) == Join(Join(a, c), Join(b, d))
  {
    JoinIsLeastUpperBound(a, b, Join(c, d));
    JoinIsLeastUpperBound(b, c, d);
    JoinIsLeastUpperBound(c, b, d);
    JoinIsLeastUpperBound(a, c, Join(b, d));
  }

  /** Whatever stamps the sites carry, a pull holds, per url, the later of the newest update and the newest deletion
      either side knows, deletion winning a tie, and never both a site and a marker. */
  lemma PullIsJoin(base: Json, l: Local, rs: seq<Site>, ds: seq<SiteTomb>, remoteWins: bool, u: string)
    requires u != ""
    ensures var r := Pull(base, l, rs, ds, remoteWins);
      UrlMark(r, u) == Join(UrlMark(l, u), Join(SiteMarks(rs, u), TombMark(ds, u)))
    ensures var r := Pull(base, l, rs, ds, remoteWins);
      LastSite(r.sites, u).None? || TombMark(r.tombs, u).Unknown?
  {
    var all := l.tombs + ds;
    MergeTombsKeepsMarks(all);
    TombMarkConcat(l.tombs, ds, u);
    if rs == [] && MergeTombs(all) == [] {
      assert TombMap(all) == map[];
    } else {
      MergeIsJoin(base, l.sites, rs, remoteWins, u);
      ApplyIsJoin(MergeSites(base, l.sites, rs, remoteWins), MergeTombs(all), u);
      JoinRegroup(SiteMark(LastSite(l.sites, u)), SiteMarks(rs, u), TombMark(l.tombs, u), TombMark(ds, u));
    }
  }

  /** The marker list left by `apply_site_tombstones` is the map left over. */
  lemma AppliedTombs(b: seq<Site>, ds: seq<SiteTomb>)
    requires UniqueUrls(b)
    ensures ApplyTombs(b, ds).sites == Kept(b, TombMap(ds))
    ensures TombMap(ApplyTombs(b, ds).tombs) == TombMap(ds) - UsedUp(b, TombMap(ds))
  {
    NamedTombs(ds);
    ApplyUnique(b, TombMap(ds));
    SortUniqueSorted(TombUrls(ds));
    ListingMap(SortUnique(TombUrls(ds)), TombMap(ds) - UsedUp(b, TombMap(ds)));
  }

  // ---------------------------------------------------------------- pulling again changes nothing

  lemma {:induction false} PutLocalsFixpoint(base: Json, k: seq<Site>)
    requires UniqueUrls(k) && forall s :: s in k ==> Filled(base, s) == s
    ensures PutLocals(base, k) == k
  {
    if k != [] {
      var init, s := k[..|k| - 1], k[|k| - 1];
      PutLocalsFixpoint(base, init);
      assert s in k && k == init + [s];
      assert s.url != "" ==> IndexOf(init, s.url) == |init|;
    }
  }

  lemma {:induction false} PutRemotesFilled(base: Json, b: seq<Site>, rs: seq<Site>, remoteWins: bool)
    requires forall s :: s in b ==> Filled(base, s) == s
    ensures forall s :: s in PutRemotes(base, b, rs, remoteWins) ==> Filled(base, s) == s
  {
    if rs != [] {
      PutRemotesFilled(base, b, rs[..|rs| - 1], remoteWins);
      FillIdempotent(base, rs[|rs| - 1].body);
    }
  }

  lemma {:induction false} KeptAll(xs: seq<Site>, m: map<string, nat>)
    requires forall i :: 0 <= i < |xs| ==> Outlives(xs[i], m)
    ensures Kept(xs, m) == xs
  {
    if xs != [] { KeptAll(xs[..|xs| - 1], m); }
  }

  lemma {:induction false} KeptConcat(xs: seq<Site>, ys: seq<Site>, m: map<string, nat>)
    requires forall i :: 0 <= i < |xs| ==> Outlives(xs[i], m)
    requires forall i :: 0 <= i < |ys| ==> !Outlives(ys[i], m)
    ensures Kept(xs + ys, m) == xs
  {
    if ys == [] {
      assert xs + ys == xs;
      KeptAll(xs, m);
    } else {
      assert (xs + ys)[..|xs + ys| - 1] == xs + ys[..|ys| - 1];
      KeptConcat(xs, ys[..|ys| - 1], m);
    }
  }

  /** The survivors `k` of a first pull with markers `m1`, and the markers `x1` it left. */
  ghost predicate FirstPull(base: Json, ls: seq<Site>, rs: seq<Site>, remoteWins: bool, m1: map<string, nat>,
          k: seq<Site>, x1: map<string, nat>) {
    var b1 := MergeSites(base, ls, rs, remoteWins);
    "" !in m1 && k == Kept(b1, m1) && x1 == m1 - UsedUp(b1, m1)
  }

  lemma FirstPullShape(base: Json, ls: seq<Site>, rs: seq<Site>, remoteWins: bool, m1: map<string, nat>, k: seq<Site>,
          x1: map<string, nat>)
    requires FirstPull(base, ls, rs, remoteWins, m1, k, x1)
    ensures var b1 := MergeSites(base, ls, rs, remoteWins);
      UniqueUrls(b1) && UniqueUrls(k) && PutLocals(base, k) == k
      && (forall s :: s in k <==> s in b1 && Outlives(s, m1))
  {
    var locals := PutLocals(base, ls);
    PutLocalsUnique(base, ls);
    PutRemotesShape(base, locals, rs, remoteWins, "");
    PutRemotesFilled(base, locals, rs, remoteWins);
    KeptMembers(MergeSites(base, ls, rs, remoteWins), m1);
    PutLocalsFixpoint(base, k);
  }

  /** A survivor meets the remote list again unchanged. */
  lemma SurvivorStable(base: Json, ls: seq<Site>, rs: seq<Site>, remoteWins: bool, m1: map<string, nat>, k: seq<Site>,
          x1: map<string, nat>, i: nat)
    requires FirstPull(base, ls, rs, remoteWins, m1, k, x1) && i < |k|
    ensures var b2 := PutRemotes(base, k, rs, remoteWins);
      UniqueUrls(k) && |k| <= |b2| && b2[i] == k[i]
  {
    FirstPullShape(base, ls, rs, remoteWins, m1, k, x1);
    var u, b1, locals := k[i].url, MergeSites(base, ls, rs, remoteWins), PutLocals(base, ls);
    PutRemotesShape(base, k, rs, remoteWins, u);
    if u != "" {
      FindDetermined(k, i, u);
      assert k[i] in k;
      FindMember(b1, u, k[i]);
      PutLocalsUnique(base, ls);
      PutRemotesShape(base, locals, rs, remoteWins, u);
      FoldIdempotent(base, Find(locals, u), rs, u, remoteWins);
      FindDetermined(PutRemotes(base, k, rs, remoteWins), i, u);
    }
  }

  /** A site that comes back from the remote list after its deletion still loses to its marker. */
  lemma RevivedDies(base: Json, ls: seq<Site>, rs: seq<Site>, remoteWins: bool, m1: map<string, nat>, k: seq<Site>,
          x1: map<string, nat>, i: nat)
    requires FirstPull(base, ls, rs, remoteWins, m1, k, x1)
    requires |k| <= i < |PutRemotes(base, k, rs, remoteWins)|
    ensures var s := PutRemotes(base, k, rs, remoteWins)[i];
      s.url in x1 && !(s.at.At? && H.TimeKey(s.at) > x1[s.url])
  {
    FirstPullShape(base, ls, rs, remoteWins, m1, k, x1);
    var b2, b1, locals := PutRemotes(base, k, rs, remoteWins), MergeSites(base, ls, rs, remoteWins),
        PutLocals(base, ls);
    var s := b2[i];
    var u := s.url;
    NewUrls(base, k, rs, remoteWins, i);
    PutRemotesShape(base, k, rs, remoteWins, u);
    FindDetermined(b2, i, u);
    assert Find(k, u).None? by {
      if Find(k, u).Some? { FindDetermined(b2, IndexOf(k, u), u); }
    }
    FoldFromNothing(base, rs, u, remoteWins);
    var j :| 0 <= j < |rs| && rs[j].url == u && rs[j].at == s.at;
    PutLocalsUnique(base, ls);
    PutRemotesShape(base, locals, rs, remoteWins, u);
    FoldAbove(base, Find(locals, u), rs, u, remoteWins);
    KeptFind(b1, m1, u);
  }

  /** A merge only appends sites that have a url. */
  lemma {:induction false} NewUrls(base: Json, b: seq<Site>, rs: seq<Site>, remoteWins: bool, i: nat)
    requires UniqueUrls(b) && |b| <= i < |PutRemotes(base, b, rs, remoteWins)|
    ensures PutRemotes(base, b, rs, remoteWins)[i].url != ""
  {
    if rs != [] {
      var init := rs[..|rs| - 1];
      PutRemotesShape(base, b, init, remoteWins, "");
      PutRemoteShape(base, PutRemotes(base, b, init, remoteWins), rs[|rs| - 1], remoteWins, "");
      if i < |PutRemotes(base, b, init, remoteWins)| { NewUrls(base, b, init, remoteWins, i); }
    }
  }

  ghost predicate HasUrl(k: seq<Site>, u: string) {
    exists i :: 0 <= i < |k| && k[i].url == u
  }

  /** The second merge, filtered by any markers that agree with those left and with survivors, gives
      back the survivors. */
  lemma SecondPullSites(base: Json, ls: seq<Site>, rs: seq<Site>, remoteWins: bool, m1: map<string, nat>, k: seq<Site>,
          x1: map<string, nat>, m2: map<string, nat>)
    requires FirstPull(base, ls, rs, remoteWins, m1, k, x1)
    requires forall u :: u in m2 ==> u in m1 && m2[u] <= m1[u]
    requires forall u :: u in x1 ==> u in m2 && m2[u] >= x1[u]
    ensures var b2 := MergeSites(base, k, rs, remoteWins);
      UniqueUrls(b2) && Kept(b2, m2) == k && (forall u :: u in UsedUp(b2, m2) <==> HasUrl(k, u))
  {
    FirstPullShape(base, ls, rs, remoteWins, m1, k, x1);
    var b2 := PutRemotes(base, k, rs, remoteWins);
    PutRemotesShape(base, k, rs, remoteWins, "");
    forall i | 0 <= i < |k| ensures b2[i] == k[i] && Outlives(b2[i], m2) {
      SurvivorStable(base, ls, rs, remoteWins, m1, k, x1, i);
      assert k[i] in k;
    }
    forall i | |k| <= i < |b2| ensures !Outlives(b2[i], m2) {
      RevivedDies(base, ls, rs, remoteWins, m1, k, x1, i);
    }
    assert b2 == k + b2[|k|..];
    KeptConcat(k, b2[|k|..], m2);
    forall u ensures u in UsedUp(b2, m2) <==> HasUrl(k, u) {
      if i :| 0 <= i < |k| && k[i].url == u { assert Outlives(b2[i], m2) && b2[i].url == u; }
    }
  }

  /** Pulling the same shared list again changes nothing at all, for any local and remote input:
      stamped or not, duplicated or not, whichever side wins. */
  lemma PullAgain(base: Json, l: Local, rs: seq<Site>, ds: seq<SiteTomb>, remoteWins: bool)
    ensures var r := Pull(base, l, rs, ds, remoteWins);
      Pull(base, r, rs, ds, remoteWins) == r
  {
    var r, all1 := Pull(base, l, rs, ds, remoteWins), l.tombs + ds;
    var d1 := MergeTombs(all1);
    if !(rs == [] && d1 == []) {
      var b1, m1 := MergeSites(base, l.sites, rs, remoteWins), TombMap(all1);
      MergeTombsKeepsMarks(all1);
      NamedTombs(all1);
      PutLocalsUnique(base, l.sites);
      PutRemotesShape(base, PutLocals(base, l.sites), rs, remoteWins, "");
      AppliedTombs(b1, d1);
      var k, x1 := r.sites, TombMap(r.tombs);
      assert FirstPull(base, l.sites, rs, remoteWins, m1, k, x1);

      var all2 := r.tombs + ds;
      var d2, m2 := MergeTombs(all2), TombMap(all2);
      MergeTombsKeepsMarks(all2);
      forall u ensures u in m2 ==> u in m1 && m2[u] <= m1[u]
        ensures u in x1 ==> u in m2 && m2[u] >= x1[u]
      {
        TombMarkConcat(l.tombs, ds, u);
        TombMarkConcat(r.tombs, ds, u);
      }
      SecondPullSites(base, l.sites, rs, remoteWins, m1, k, x1, m2);
      var b2 := MergeSites(base, k, rs, remoteWins);
      AppliedTombs(b2, d2);
      SecondPullTombs(base, l.sites, rs, remoteWins, m1, k, x1, m2);
      SortUniqueSorted(TombUrls(d1));
      SortUniqueSorted(TombUrls(d2));
      ListingDetermined(SortUnique(TombUrls(d1)), SortUnique(TombUrls(d2)), x1);
      NamedTombs(d1);
      NamedTombs(d2);
      ApplyUnique(b1, TombMap(d1));
      ApplyUnique(b2, TombMap(d2));
    }
  }

  /** A marker survives a pull exactly when no site kept for its url used it up. */
  lemma MarkerLeft(b: seq<Site>, m: map<string, nat>, u: string)
    requires UniqueUrls(b) && u != ""
    ensures UniqueUrls(Kept(b, m))
    ensures u in UsedUp(b, m) <==> HasUrl(Kept(b, m), u)
  {
    KeptFind(b, m, u);
    FoundIn(Kept(b, m), u);
  }

  lemma SecondPullTombs(base: Json, ls: seq<Site>, rs: seq<Site>, remoteWins: bool, m1: map<string, nat>, k: seq<Site>,
          x1: map<string, nat>, m2: map<string, nat>)
    requires FirstPull(base, ls, rs, remoteWins, m1, k, x1)
    requires forall u :: u in m2 ==> u in m1 && m2[u] <= m1[u]
    requires forall u :: u in x1 ==> u in m2 && m2[u] >= x1[u]
    ensures m2 - UsedUp(MergeSites(base, k, rs, remoteWins), m2) == x1
  {
    var b1, used := MergeSites(base, ls, rs, remoteWins), UsedUp(MergeSites(base, k, rs, remoteWins), m2);
    SecondPullSites(base, ls, rs, remoteWins, m1, k, x1, m2);
    FirstPullShape(base, ls, rs, remoteWins, m1, k, x1);
    forall u | u in m2 ensures u in used <==> u !in x1 {
      MarkerLeft(b1, m1, u);
    }
    MarkersAgree(m1, UsedUp(b1, m1), m2, used);
  }

  lemma MarkersAgree(m1: map<string, nat>, used1: set<string>, m2: map<string, nat>, used2: set<string>)
    requires forall u :: u in m2 ==> u in m1 && m2[u] <= m1[u]
    requires forall u :: u in m1 - used1 ==> u in m2 && m2[u] >= m1[u]
    requires forall u :: u in m2 ==> (u in used2 <==> u !in m1 - used1)
    ensures m2 - used2 == m1 - used1
  {
  }

  lemma FoundIn(k: seq<Site>, u: string)
    requires UniqueUrls(k) && u != ""
    ensures Find(k, u).Some? <==> HasUrl(k, u)
  {
    if Find(k, u).Some? { assert k[IndexOf(k, u)].url == u; }
    if i :| 0 <= i < |k| && k[i].url == u { FindDetermined(k, i, u); }
  }
}
