/**
 Whose settings a merged site carries: for every url, which of the sites listed for it wins, and whether it survives
 the deletions.
 */
module SiteContents {
  import opened Wrappers
  import opened Ordering
  import opened Sites
  import opened SiteProofs
  import H = History

  // ---------------------------------------------------------------- who wins

  /** The sites of the list with that url, in order. */
  function Having(rs: seq<Site>, u: string): seq<Site> {
    if rs == [] then []
    else Having(rs[..|rs| - 1], u) + (if rs[|rs| - 1].url == u then [rs[|rs| - 1]] else [])
  }

  function AsList(o: Option<Site>): seq<Site> {
    if o.None? then [] else [o.value]
  }

  /** All that compete for a url: the local site (the last one listed), then the remote ones. */
  function Candidates(ls: seq<Site>, rs: seq<Site>, u: string): seq<Site> {
    AsList(LastSite(ls, u)) + Having(rs, u)
  }

  /** No candidate is newer than candidate `i`.  Among equally new dated ones the first wins; among undated ones
      the first too, unless the remote list counts as newer: then the last unstamped one replaces an unstamped first. */
  ghost predicate Wins(cs: seq<Site>, i: nat, remoteWins: bool) {
    && i < |cs| && (forall j :: 0 <= j < |cs| ==> H.TimeKey(cs[j].at) <= H.TimeKey(cs[i].at))
    && if H.TimeKey(cs[i].at) > 0 then forall j :: 0 <= j < i ==> H.TimeKey(cs[j].at) < H.TimeKey(cs[i].at)
       else if remoteWins && cs[0].at.Blank? then cs[i].at.Blank? && forall j :: i < j < |cs| ==> !cs[j].at.Blank?
       else i == 0
  }

  lemma OneWinner(cs: seq<Site>, i: nat, j: nat, remoteWins: bool)
    requires Wins(cs, i, remoteWins) && Wins(cs, j, remoteWins)
    ensures i == j
  {
  }

  lemma NextCandidate(cs: seq<Site>, i: nat, r: Site, remoteWins: bool)
    requires Wins(cs, i, remoteWins)
    ensures Wins(cs + [r], if Replaces(cs[i], r, remoteWins) then |cs| else i, remoteWins)
  {
    assert forall j :: 0 <= j < |cs| ==> (cs + [r])[j] == cs[j];
  }

  /** `f` is what the candidates come to: candidate `i`, filled with the defaults. */
  ghost predicate Picked(base: Json, cs: seq<Site>, i: nat, remoteWins: bool, f: Option<Site>) {
    if cs == [] then f == None else Wins(cs, i, remoteWins) && f == Some(Filled(base, cs[i]))
  }

  lemma PickedNext(base: Json, cs: seq<Site>, i: nat, r: Site, remoteWins: bool, f: Option<Site>)
    requires Picked(base, cs, i, remoteWins, f)
    ensures if f.None? || Replaces(f.value, r, remoteWins) then
        Picked(base, cs + [r], |cs|, remoteWins, Some(Filled(base, r)))
      else Picked(base, cs + [r], i, remoteWins, f)
  {
    if cs != [] { NextCandidate(cs, i, r, remoteWins); }
  }

  lemma {:induction false} FoldWins(base: Json, local: Option<Site>, cur: Option<Site>, rs: seq<Site>, u: string,
          remoteWins: bool)
    returns (i: nat)
    requires cur == if local.None? then None else Some(Filled(base, local.value))
    ensures Picked(base, AsList(local) + Having(rs, u), i, remoteWins, FoldUrl(base, cur, rs, u, remoteWins))
  {
    i := 0;
    if rs != [] {
      var init, r := rs[..|rs| - 1], rs[|rs| - 1];
      i := FoldWins(base, local, cur, init, u, remoteWins);
      var cs, f := AsList(local) + Having(init, u), FoldUrl(base, cur, init, u, remoteWins);
      if r.url == u {
        assert AsList(local) + Having(rs, u) == cs + [r];
        PickedNext(base, cs, i, r, remoteWins, f);
        if f.None? || Replaces(f.value, r, remoteWins) { i := |cs|; }
      } else {
        assert AsList(local) + Having(rs, u) == cs;
      }
    }
  }

  /** The site the merge holds for a url is the winner among its candidates, filled with the defaults. */
  lemma MergeWinner(base: Json, ls: seq<Site>, rs: seq<Site>, remoteWins: bool, u: string)
    requires u != ""
    ensures UniqueUrls(MergeSites(base, ls, rs, remoteWins))
    ensures var f, cs := Find(MergeSites(base, ls, rs, remoteWins), u), Candidates(ls, rs, u);
      if cs == [] then f == None
      else exists i: nat {:trigger Wins(cs, i, remoteWins)} :: Wins(cs, i, remoteWins) && f == Some(Filled(base, cs[i]))
  {
    PutLocalsFind(base, ls, u);
    PutRemotesShape(base, PutLocals(base, ls), rs, remoteWins, u);
    var i := FoldWins(base, LastSite(ls, u), Find(PutLocals(base, ls), u), rs, u, remoteWins);
  }

  // ---------------------------------------------------------------- deletion markers

  /** `t` is the newest deletion of `u`. */
  ghost predicate Newest(ds: seq<SiteTomb>, u: string, t: nat) {
    && u != "" && (exists i :: 0 <= i < |ds| && ds[i] == SiteTomb(u, H.At(t)))
    && forall i :: 0 <= i < |ds| && ds[i].url == u && ds[i].at.At? ==> ds[i].at.key <= t
  }

  lemma {:induction false} NewestIs(ds: seq<SiteTomb>, u: string)
    ensures u in TombMap(ds) ==> Newest(ds, u, TombMap(ds)[u])
    ensures u !in TombMap(ds) ==> forall i :: 0 <= i < |ds| && ds[i].url == u ==> u == "" || ds[i].at.Blank?
  {
    if ds != [] {
      var init, d := ds[..|ds| - 1], ds[|ds| - 1];
      NewestIs(init, u);
      assert ds == init + [d];
      if u in TombMap(init) {
        var i :| 0 <= i < |init| && init[i] == SiteTomb(u, H.At(TombMap(init)[u]));
        assert ds[i] == init[i];
      }
      assert ds[|init|] == d;
    }
  }

  lemma NewestIff(ds: seq<SiteTomb>, u: string, t: nat)
    ensures Newest(ds, u, t) <==> u in TombMap(ds) && TombMap(ds)[u] == t
  {
    NewestIs(ds, u);
    if Newest(ds, u, t) && u in TombMap(ds) {
      var i :| 0 <= i < |ds| && ds[i] == SiteTomb(u, H.At(t));
      var j :| 0 <= j < |ds| && ds[j] == SiteTomb(u, H.At(TombMap(ds)[u]));
    }
  }

  ghost predicate ByUrls(ms: seq<SiteTomb>) {
    forall i, j :: 0 <= i < j < |ms| ==> Less(ms[i].url, ms[j].url)
  }

  lemma {:induction false} ListingHolds(us: seq<string>, m: map<string, nat>, x: SiteTomb)
    ensures x in Listing(us, m) <==> x.url in us && x.url in m && x.at == H.At(m[x.url])
  {
    if us != [] { ListingHolds(us[..|us| - 1], m, x); }
  }

  lemma {:induction false} ListingByUrls(us: seq<string>, m: map<string, nat>)
    requires Sorted(us)
    ensures ByUrls(Listing(us, m))
  {
    if us != [] {
      var init, u := us[..|us| - 1], us[|us| - 1];
      ListingByUrls(init, m);
      var l := Listing(init, m);
      forall i | 0 <= i < |l| ensures Less(l[i].url, u) {
        ListingHolds(init, m, l[i]);
        var j :| 0 <= j < |init| && init[j] == l[i].url;
        assert Less(us[j], us[|us| - 1]);
      }
    }
  }

  lemma ListingMembers(us: seq<string>, m: map<string, nat>)
    requires Sorted(us)
    ensures ByUrls(Listing(us, m))
    ensures forall x :: x in Listing(us, m) <==> x.url in us && x.url in m && x.at == H.At(m[x.url])
  {
    ListingByUrls(us, m);
    forall x ensures x in Listing(us, m) <==> x.url in us && x.url in m && x.at == H.At(m[x.url]) {
      ListingHolds(us, m, x);
    }
  }

  /** Merged markers: sorted by url, exactly the newest deletion of every url. */
  lemma MarkersAre(ds: seq<SiteTomb>)
    ensures ByUrls(MergeTombs(ds))
    ensures forall x :: x in MergeTombs(ds) <==> x.at.At? && Newest(ds, x.url, x.at.key)
  {
    SortUniqueSorted(TombUrls(ds));
    ListingMembers(SortUnique(TombUrls(ds)), TombMap(ds));
    forall x ensures x in MergeTombs(ds) <==> x.at.At? && Newest(ds, x.url, x.at.key) {
      if x.at.At? { NewestIff(ds, x.url, x.at.key); }
    }
  }

  // ---------------------------------------------------------------- winner against deletions

  /** The site is strictly newer than every deletion of its url. */
  ghost predicate Survives(s: Site, ds: seq<SiteTomb>) {
    forall t: nat :: Newest(ds, s.url, t) ==> s.at.At? && H.TimeKey(s.at) > t
  }

  lemma SurvivesIff(s: Site, ds: seq<SiteTomb>)
    ensures Survives(s, ds) <==> Outlives(s, TombMap(ds))
  {
    forall t: nat ensures Newest(ds, s.url, t) <==> s.url in TombMap(ds) && TombMap(ds)[s.url] == t {
      NewestIff(ds, s.url, t);
    }
    if s.url in TombMap(ds) { assert Newest(ds, s.url, TombMap(ds)[s.url]); }
  }

  /** The only marker left for the url is its newest deletion, and only if no site is left. */
  ghost predicate MarkerLeft(ds: seq<SiteTomb>, u: string, r: Local) {
    forall t: nat {:trigger Newest(ds, u, t)} ::
      SiteTomb(u, H.At(t)) in r.tombs <==> Find(r.sites, u).None? && Newest(ds, u, t)
  }

  /** What is held for one url after merging two lists and applying the deletions: the winning site if it is newer
      than every deletion, otherwise the newest deletion if there is any. */
  ghost predicate Settled(base: Json, ls: seq<Site>, rs: seq<Site>, ds: seq<SiteTomb>, remoteWins: bool, u: string,
          r: Local) {
    var cs, f := Candidates(ls, rs, u), Find(r.sites, u);
    && (cs == [] ==> f == None)
    && (forall i: nat {:trigger Wins(cs, i, remoteWins)} :: Wins(cs, i, remoteWins) ==>
          f == if Survives(cs[i], ds) then Some(Filled(base, cs[i])) else None)
    && MarkerLeft(ds, u, r)
  }

  lemma LeftMarkers(b: seq<Site>, ds: seq<SiteTomb>, u: string)
    requires UniqueUrls(b) && u != ""
    ensures var r := ApplyTombs(b, MergeTombs(ds));
      && ByUrls(r.tombs)
      && MarkerLeft(ds, u, r)
  {
    var all := MergeTombs(ds);
    var m := TombMap(all);
    NamedTombs(all);
    MergeTombsKeepsMarks(ds);
    ApplyUnique(b, m);
    SortUniqueSorted(TombUrls(all));
    ListingMembers(SortUnique(TombUrls(all)), m - UsedUp(b, m));
    KeptFind(b, m, u);
    forall t: nat ensures SiteTomb(u, H.At(t)) in ApplyTombs(b, all).tombs <==>
      Find(ApplyTombs(b, all).sites, u).None? && Newest(ds, u, t)
    {
      NewestIff(ds, u, t);
    }
  }

  lemma MergeSettles(base: Json, ls: seq<Site>, rs: seq<Site>, ds: seq<SiteTomb>, remoteWins: bool, u: string)
    requires u != ""
    ensures var r := ApplyTombs(MergeSites(base, ls, rs, remoteWins), MergeTombs(ds));
      UniqueUrls(r.sites) && ByUrls(r.tombs) && Settled(base, ls, rs, ds, remoteWins, u, r)
  {
    var b, all := MergeSites(base, ls, rs, remoteWins), MergeTombs(ds);
    var cs := Candidates(ls, rs, u);
    MergeWinner(base, ls, rs, remoteWins, u);
    MergeTombsKeepsMarks(ds);
    AppliedTombs(b, all);
    KeptFind(b, TombMap(all), u);
    LeftMarkers(b, ds, u);
    forall i: nat | Wins(cs, i, remoteWins)
      ensures Find(Kept(b, TombMap(all)), u) == if Survives(cs[i], ds) then Some(Filled(base, cs[i])) else None
    {
      var j: nat :| Wins(cs, j, remoteWins) && Find(b, u) == Some(Filled(base, cs[j]));
      OneWinner(cs, i, j, remoteWins);
      SurvivesIff(cs[i], ds);
    }
  }

  /** A pull, url by url: whose settings are kept, and which deletions. */
  lemma PullSettles(base: Json, l: Local, rs: seq<Site>, ds: seq<SiteTomb>, remoteWins: bool, u: string)
    requires u != ""
    ensures var r := Pull(base, l, rs, ds, remoteWins);
      if rs == [] && (forall v, t: nat :: !Newest(l.tombs + ds, v, t)) then r == l
      else UniqueUrls(r.sites) && ByUrls(r.tombs) && Settled(base, l.sites, rs, l.tombs + ds, remoteWins, u, r)
  {
    var all := l.tombs + ds;
    MarkersAre(all);
    if MergeTombs(all) == [] {
      forall v, t: nat ensures !Newest(all, v, t) { assert SiteTomb(v, H.At(t)) !in MergeTombs(all); }
    } else {
      var x := MergeTombs(all)[0];
      assert x in MergeTombs(all) && Newest(all, x.url, x.at.key);
    }
    MergeSettles(base, l.sites, rs, all, remoteWins, u);
  }

  // ---------------------------------------------------------------- order, and sites without a url

  /** Local urls in order of first appearance; every site without one keeps its own place. */
  function LocalOrder(us: seq<string>): seq<string> {
    if us == [] then []
    else
      var r, u := LocalOrder(us[..|us| - 1]), us[|us| - 1];
      if u != "" && u in r then r else r + [u]
  }

  lemma {:induction false} LocalsInOrder(base: Json, ls: seq<Site>)
    ensures Urls(PutLocals(base, ls)) == LocalOrder(Urls(ls))
  {
    if ls != [] {
      var init, s := ls[..|ls| - 1], ls[|ls| - 1];
      var b := PutLocals(base, init);
      LocalsInOrder(base, init);
      assert Urls(ls)[..|ls| - 1] == Urls(init);
      if s.url != "" && IndexOf(b, s.url) < |b| {
        assert Urls(b)[IndexOf(b, s.url)] == s.url;
        assert Urls(PutLocal(base, b, s)) == Urls(b);
      } else {
        assert s.url != "" ==> s.url !in Urls(b);
        assert Urls(b + [Filled(base, s)]) == Urls(b) + [s.url];
      }
    }
  }

  function Nameless(b: seq<Site>): seq<Site> {
    if b == [] then []
    else Nameless(b[..|b| - 1]) + (if b[|b| - 1].url == "" then [b[|b| - 1]] else [])
  }

  function AllFilled(base: Json, b: seq<Site>): seq<Site> {
    seq(|b|, i requires 0 <= i < |b| => Filled(base, b[i]))
  }

  lemma {:induction false} NamelessReplace(b: seq<Site>, i: nat, s: Site)
    requires i < |b| && b[i].url != "" && s.url != ""
    ensures Nameless(b[i := s]) == Nameless(b)
  {
    var init := b[..|b| - 1];
    if i < |init| {
      NamelessReplace(init, i, s);
      assert b[i := s][..|b| - 1] == init[i := s];
    } else {
      assert b[i := s][..|b| - 1] == init;
    }
  }

  lemma NamelessAppend(b: seq<Site>, s: Site)
    ensures Nameless(b + [s]) == if s.url == "" then Nameless(b) + [s] else Nameless(b)
  {
    assert (b + [s])[..|b|] == b;
  }

  lemma NamelessPut(base: Json, b: seq<Site>, s: Site)
    ensures Nameless(PutLocal(base, b, s)) == if s.url == "" then Nameless(b) + [Filled(base, s)] else Nameless(b)
  {
    NamelessAppend(b, Filled(base, s));
    if s.url != "" && IndexOf(b, s.url) < |b| { NamelessReplace(b, IndexOf(b, s.url), Filled(base, s)); }
  }

  lemma FilledAppend(base: Json, b: seq<Site>, s: Site)
    ensures AllFilled(base, b + [s]) == AllFilled(base, b) + [Filled(base, s)]
  {
  }

  lemma {:induction false} NamelessLocals(base: Json, ls: seq<Site>)
    ensures Nameless(PutLocals(base, ls)) == AllFilled(base, Nameless(ls))
  {
    if ls != [] {
      var init, s := ls[..|ls| - 1], ls[|ls| - 1];
      NamelessLocals(base, init);
      NamelessPut(base, PutLocals(base, init), s);
      NamelessAppend(init, s);
      FilledAppend(base, Nameless(init), s);
      assert init + [s] == ls;
    }
  }

  lemma {:induction false} NamelessRemotes(base: Json, b: seq<Site>, rs: seq<Site>, remoteWins: bool)
    ensures Nameless(PutRemotes(base, b, rs, remoteWins)) == Nameless(b)
  {
    if rs != [] {
      var init, s := rs[..|rs| - 1], rs[|rs| - 1];
      var c := PutRemotes(base, b, init, remoteWins);
      NamelessRemotes(base, b, init, remoteWins);
      NamelessAppend(c, Filled(base, s));
      if s.url != "" && IndexOf(c, s.url) < |c| { NamelessReplace(c, IndexOf(c, s.url), Filled(base, s)); }
    }
  }

  lemma {:induction false} NamelessKept(b: seq<Site>, m: map<string, nat>)
    requires "" !in m
    ensures Nameless(Kept(b, m)) == Nameless(b)
  {
    if b != [] {
      var init, s := b[..|b| - 1], b[|b| - 1];
      NamelessKept(init, m);
      NamelessAppend(Kept(init, m), s);
      assert Kept(b, m) == if Outlives(s, m) then Kept(init, m) + [s] else Kept(init, m);
    }
  }

  /** Every local site without a url stays, in order, filled with the defaults; remote ones without a url are
      ignored. */
  lemma NamelessStay(base: Json, ls: seq<Site>, rs: seq<Site>, ds: seq<SiteTomb>, remoteWins: bool)
    ensures Nameless(ApplyTombs(MergeSites(base, ls, rs, remoteWins), MergeTombs(ds)).sites) ==
      AllFilled(base, Nameless(ls))
  {
    var b, all := MergeSites(base, ls, rs, remoteWins), MergeTombs(ds);
    PutLocalsUnique(base, ls);
    PutRemotesShape(base, PutLocals(base, ls), rs, remoteWins, "");
    AppliedTombs(b, all);
    NamedTombs(all);
    NamelessKept(b, TombMap(all));
    NamelessRemotes(base, PutLocals(base, ls), rs, remoteWins);
    NamelessLocals(base, ls);
  }

  // ---------------------------------------------------------------- a site nobody else has touched since

  /** `d` holds nothing for the url that beats the site: no deletion it does not outlive, and no site as new as it,
      unless neither is stamped. */
  ghost predicate Unopposed(s: Site, d: Local) {
    && Survives(s, d.tombs)
    && (LastSite(d.sites, s.url).Some? ==>
          var o := LastSite(d.sites, s.url).value;
          H.TimeKey(o.at) < H.TimeKey(s.at) || (o.at.Blank? && s.at.Blank?))
  }

  lemma {:induction false} HavingNone(b: seq<Site>, u: string)
    requires forall i :: 0 <= i < |b| ==> b[i].url != u
    ensures Having(b, u) == []
  {
    if b != [] { HavingNone(b[..|b| - 1], u); }
  }

  lemma {:induction false} HavingUnique(b: seq<Site>, i: nat)
    requires UniqueUrls(b) && i < |b| && b[i].url != ""
    ensures Having(b, b[i].url) == [b[i]]
  {
    var init := b[..|b| - 1];
    if i < |init| {
      HavingUnique(init, i);
      assert b[|b| - 1].url != b[i].url;
    } else {
      HavingNone(init, b[i].url);
    }
  }

  lemma SurvivesBoth(s: Site, xs: seq<SiteTomb>, ys: seq<SiteTomb>)
    requires Survives(s, xs) && Survives(s, ys)
    ensures Survives(s, xs + ys)
  {
    forall t: nat | Newest(xs + ys, s.url, t) ensures s.at.At? && H.TimeKey(s.at) > t {
      var i :| 0 <= i < |xs + ys| && (xs + ys)[i] == SiteTomb(s.url, H.At(t));
      assert forall j :: 0 <= j < |xs| ==> (xs + ys)[j] == xs[j];
      assert forall j :: 0 <= j < |ys| ==> (xs + ys)[|xs| + j] == ys[j];
      if i < |xs| {
        assert Newest(xs, s.url, t);
      } else {
        assert ys[i - |xs|] == (xs + ys)[i];
        assert Newest(ys, s.url, t);
      }
    }
  }

  lemma UnopposedWins(ls: seq<Site>, rs: seq<Site>, s: Site)
    requires s.url != "" && Having(rs, s.url) == [s]
    requires LastSite(ls, s.url).Some? ==>
      H.TimeKey(LastSite(ls, s.url).value.at) < H.TimeKey(s.at) || (LastSite(ls, s.url).value.at.Blank? && s.at.Blank?)
    ensures var cs := Candidates(ls, rs, s.url); |cs| > 0 && cs[|cs| - 1] == s && Wins(cs, |cs| - 1, true)
  {
    assert Candidates(ls, rs, s.url) == AsList(LastSite(ls, s.url)) + [s];
  }

  lemma SettledAs(base: Json, ls: seq<Site>, rs: seq<Site>, ds: seq<SiteTomb>, s: Site, r: Local)
    requires Settled(base, ls, rs, ds, true, s.url, r) && Survives(s, ds)
    requires var cs := Candidates(ls, rs, s.url); |cs| > 0 && cs[|cs| - 1] == s && Wins(cs, |cs| - 1, true)
    ensures Find(r.sites, s.url) == Some(Filled(base, s))
    ensures forall t: nat :: SiteTomb(s.url, H.At(t)) !in r.tombs
  {
    assert MarkerLeft(ds, s.url, r);
    forall t: nat ensures SiteTomb(s.url, H.At(t)) !in r.tombs {
      if Newest(ds, s.url, t) {}
    }
  }

  /** Merged as the newer list with another one that holds nothing against it, a site comes out with its own
      settings. */
  lemma UnopposedStays(base: Json, d: Local, form: Local, s: Site, r: Local)
    requires UniqueUrls(form.sites) && s.url != "" && Find(form.sites, s.url) == Some(s)
    requires Survives(s, form.tombs) && Unopposed(s, d)
    requires r == ApplyTombs(MergeSites(base, d.sites, form.sites, true), MergeTombs(d.tombs + form.tombs))
    ensures UniqueUrls(r.sites) && Find(r.sites, s.url) == Some(Filled(base, s))
    ensures forall t: nat :: SiteTomb(s.url, H.At(t)) !in r.tombs
  {
    HavingUnique(form.sites, IndexOf(form.sites, s.url));
    UnopposedWins(d.sites, form.sites, s);
    SurvivesBoth(s, d.tombs, form.tombs);
    MergeSettles(base, d.sites, form.sites, d.tombs + form.tombs, true, s.url);
    SettledAs(base, d.sites, form.sites, d.tombs + form.tombs, s, r);
  }
}
