/**
 The plan is exact, the records say who acknowledged what, and planning again after a run asks
 for exactly what is still owed.
 */
module DeliveryProofs {
  import opened Lww
  import opened History
  import opened DeviceRegistry
  import opened Delivery

  // ---------------------------------------------------------------- equal fingerprints, equal articles

  /** The articles whose url is in `us`. */
  function Chosen(arts: seq<Article>, us: set<string>): seq<Article> {
    if arts == [] then []
    else Chosen(arts[..|arts| - 1], us) + (if arts[|arts| - 1].url in us then [arts[|arts| - 1]] else [])
  }

  lemma {:induction false} MissingMember(live: map<Key, Row>, keys: seq<string>, arts: seq<Article>, mode: Mode,
          a: Article)
    ensures a in Missing(live, keys, arts, mode) <==> a in arts && a.url != "" && !Delivered(live, a.url, keys, mode)
  {
    if arts != [] {
      MissingMember(live, keys, arts[..|arts| - 1], mode, a);
      assert arts == arts[..|arts| - 1] + [arts[|arts| - 1]];
    }
  }

  /** A missing list is the choice of its own urls from any prefix they come from. */
  lemma {:induction false} MissingIsChosen(live: map<Key, Row>, keys: seq<string>, arts: seq<Article>, mode: Mode,
          us: set<string>)
    requires forall a :: a in arts ==> (a.url in us <==> a.url != "" && !Delivered(live, a.url, keys, mode))
    ensures Missing(live, keys, arts, mode) == Chosen(arts, us)
  {
    if arts != [] {
      var init, last := arts[..|arts| - 1], arts[|arts| - 1];
      assert arts == init + [last];
      assert last in arts;
      MissingIsChosen(live, keys, init, mode, us);
    }
  }

  function UrlSet(arts: seq<Article>): set<string> {
    set a | a in arts :: a.url
  }

  lemma MissingByUrls(live: map<Key, Row>, keys: seq<string>, arts: seq<Article>, mode: Mode)
    ensures Missing(live, keys, arts, mode) == Chosen(arts, UrlSet(Missing(live, keys, arts, mode)))
  {
    var missing := Missing(live, keys, arts, mode);
    forall a | a in arts
      ensures a.url in UrlSet(missing) <==> a.url != "" && !Delivered(live, a.url, keys, mode)
    {
      MissingMember(live, keys, arts, mode, a);
      if a.url in UrlSet(missing) {
        var b :| b in missing && b.url == a.url;
        MissingMember(live, keys, arts, mode, b);
      }
    }
    MissingIsChosen(live, keys, arts, mode, UrlSet(missing));
  }

  lemma SameUrlsSameSet(a: seq<Article>, b: seq<Article>)
    requires Urls(a) == Urls(b)
    ensures UrlSet(a) == UrlSet(b)
  {
    forall u | u in UrlSet(a) ensures u in UrlSet(b) {
      var x :| x in a && x.url == u;
      var i :| 0 <= i < |a| && a[i] == x;
      assert Urls(b)[i] == u && b[i] in b;
    }
    forall u | u in UrlSet(b) ensures u in UrlSet(a) {
      var x :| x in b && x.url == u;
      var i :| 0 <= i < |b| && b[i] == x;
      assert Urls(a)[i] == u && a[i] in a;
    }
  }

  /** Grouping by url fingerprint is grouping by the missing list itself, duplicates included. */
  lemma FingerprintsDecide(live: map<Key, Row>, arts: seq<Article>, s: Target, t: Target, mode: Mode)
    requires Urls(MissingFor(live, arts, s, mode)) == Urls(MissingFor(live, arts, t, mode))
    ensures MissingFor(live, arts, s, mode) == MissingFor(live, arts, t, mode)
  {
    MissingByUrls(live, TargetKeys(s), arts, mode);
    MissingByUrls(live, TargetKeys(t), arts, mode);
    SameUrlsSameSet(MissingFor(live, arts, s, mode), MissingFor(live, arts, t, mode));
  }

  // ---------------------------------------------------------------- the plan is exact

  predicate DistinctIps(ts: seq<Target>) {
    forall i, j :: 0 <= i < j < |ts| ==> ts[i].ip != ts[j].ip
  }

  /** Parcel `k` goes to target `i` exactly when it is what that target misses. */
  ghost predicate Served(live: map<Key, Row>, arts: seq<Article>, ts: seq<Target>, mode: Mode, plan: seq<Parcel>,
          k: nat, i: nat)
    requires k < |plan| && i < |ts|
  {
    ts[i].ip in plan[k].ips <==>
        Pending(live, arts, ts[i], mode) && MissingFor(live, arts, ts[i], mode) == plan[k].articles
  }

  ghost predicate HasParcel(live: map<Key, Row>, arts: seq<Article>, t: Target, mode: Mode, plan: seq<Parcel>) {
    exists k :: 0 <= k < |plan| && plan[k].articles == MissingFor(live, arts, t, mode)
  }

  ghost predicate FromTarget(live: map<Key, Row>, arts: seq<Article>, ts: seq<Target>, mode: Mode, p: Parcel,
          ip: string) {
    exists i :: 0 <= i < |ts| && ts[i].ip == ip && Pending(live, arts, ts[i], mode) &&
        MissingFor(live, arts, ts[i], mode) == p.articles
  }

  predicate OnceEach(ips: seq<string>) {
    forall j, k :: 0 <= j < k < |ips| ==> ips[j] != ips[k]
  }

  lemma OnceMore(ips: seq<string>, ip: string)
    requires OnceEach(ips) && ip !in ips
    ensures OnceEach(ips + [ip])
  {
  }

  lemma ParcelOrigin(live: map<Key, Row>, arts: seq<Article>, ts: seq<Target>, mode: Mode, plan: seq<Parcel>, k: nat)
    returns (i: nat)
    requires k < |plan| && plan[k].ips != [] && forall ip :: ip in plan[k].ips ==>
        FromTarget(live, arts, ts, mode, plan[k], ip)
    ensures i < |ts| && MissingFor(live, arts, ts[i], mode) == plan[k].articles
  {
    assert plan[k].ips[0] in plan[k].ips;
    assert FromTarget(live, arts, ts, mode, plan[k], plan[k].ips[0]);
    i :| 0 <= i < |ts| && MissingFor(live, arts, ts[i], mode) == plan[k].articles;
  }

  /** Every parcel's addresses come from targets that miss exactly its articles, each once. */
  ghost predicate Sourced(live: map<Key, Row>, arts: seq<Article>, ts: seq<Target>, mode: Mode, plan: seq<Parcel>) {
    forall k :: 0 <= k < |plan| ==>
      plan[k].ips != [] && OnceEach(plan[k].ips) && forall ip :: ip in plan[k].ips ==>
          FromTarget(live, arts, ts, mode, plan[k], ip)
  }

  lemma FromMore(live: map<Key, Row>, arts: seq<Article>, ts: seq<Target>, mode: Mode, p: Parcel, ip: string, t: Target)
    requires FromTarget(live, arts, ts, mode, p, ip)
    ensures FromTarget(live, arts, ts + [t], mode, p, ip)
  {
    var i :| 0 <= i < |ts| && ts[i].ip == ip && Pending(live, arts, ts[i], mode) &&
        MissingFor(live, arts, ts[i], mode) == p.articles;
    assert (ts + [t])[i] == ts[i];
  }

  lemma SourcedMore(live: map<Key, Row>, arts: seq<Article>, ts: seq<Target>, mode: Mode, plan: seq<Parcel>, t: Target)
    requires Sourced(live, arts, ts, mode, plan)
    ensures Sourced(live, arts, ts + [t], mode, plan)
  {
    forall k, ip | 0 <= k < |plan| && ip in plan[k].ips ensures FromTarget(live, arts, ts + [t], mode, plan[k], ip) {
      FromMore(live, arts, ts, mode, plan[k], ip, t);
    }
  }

  lemma SourcedStep(live: map<Key, Row>, arts: seq<Article>, ts: seq<Target>, mode: Mode, plan: seq<Parcel>, t: Target)
    requires DistinctPrints(plan) && Sourced(live, arts, ts, mode, plan) && Pending(live, arts, t, mode)
    requires forall i :: 0 <= i < |ts| ==> ts[i].ip != t.ip
    ensures Sourced(live, arts, ts + [t], mode, AddTo(plan, t.ip, MissingFor(live, arts, t, mode)))
  {
    var missing := MissingFor(live, arts, t, mode);
    var next := AddTo(plan, t.ip, missing);
    AddToShape(plan, t.ip, missing);
    SourcedMore(live, arts, ts, mode, plan, t);
    assert (ts + [t])[|ts|] == t;
    forall k | 0 <= k < |next|
      ensures next[k].ips != [] && OnceEach(next[k].ips) && forall ip :: ip in next[k].ips ==>
          FromTarget(live, arts, ts + [t], mode, next[k], ip)
    {
      if k < |plan| && Urls(plan[k].articles) == Urls(missing) {
        var i := ParcelOrigin(live, arts, ts, mode, plan, k);
        FingerprintsDecide(live, arts, ts[i], t, mode);
        forall ip | ip in plan[k].ips ensures ip != t.ip { assert FromTarget(live, arts, ts, mode, plan[k], ip); }
        OnceMore(plan[k].ips, t.ip);
        forall ip | ip in next[k].ips ensures FromTarget(live, arts, ts + [t], mode, next[k], ip) {
          if ip in plan[k].ips { assert FromTarget(live, arts, ts + [t], mode, plan[k], ip); }
        }
      }
    }
  }

  lemma {:induction false} PlanSourced(live: map<Key, Row>, arts: seq<Article>, ts: seq<Target>, mode: Mode)
    requires DistinctIps(ts)
    ensures Sourced(live, arts, ts, mode, PlanOf(live, arts, ts, mode))
  {
    if ts != [] {
      var init, t := ts[..|ts| - 1], ts[|ts| - 1];
      assert ts == init + [t];
      PlanSourced(live, arts, init, mode);
      PlanHasIps(live, arts, init, mode);
      if Pending(live, arts, t, mode) {
        SourcedStep(live, arts, init, mode, PlanOf(live, arts, init, mode), t);
      } else {
        SourcedMore(live, arts, init, mode, PlanOf(live, arts, init, mode), t);
      }
    }
  }

  /** Serving one more target leaves earlier service in place. */
  lemma AddToKeeps(plan: seq<Parcel>, ip: string, missing: seq<Article>, k: nat, x: string)
    requires DistinctPrints(plan) && k < |plan| && x in plan[k].ips
    ensures var next := AddTo(plan, ip, missing);
      k < |next| && next[k].articles == plan[k].articles && x in next[k].ips
  {
    AddToShape(plan, ip, missing);
  }

  lemma AddToServes(live: map<Key, Row>, arts: seq<Article>, ts: seq<Target>, mode: Mode, plan: seq<Parcel>, t: Target)
    returns (k: nat)
    requires DistinctPrints(plan) && Sourced(live, arts, ts, mode, plan)
    ensures var next := AddTo(plan, t.ip, MissingFor(live, arts, t, mode));
      k < |next| && next[k].articles == MissingFor(live, arts, t, mode) && t.ip in next[k].ips
  {
    var missing := MissingFor(live, arts, t, mode);
    AddToShape(plan, t.ip, missing);
    if m :| 0 <= m < |plan| && Urls(plan[m].articles) == Urls(missing) {
      k := m;
      var j := ParcelOrigin(live, arts, ts, mode, plan, m);
      FingerprintsDecide(live, arts, ts[j], t, mode);
      assert (plan[m].ips + [t.ip])[|plan[m].ips|] == t.ip;
    } else {
      k := |plan|;
    }
  }

  lemma PlanNext(live: map<Key, Row>, arts: seq<Article>, ts: seq<Target>, mode: Mode, t: Target)
    ensures PlanOf(live, arts, ts + [t], mode) ==
      if Pending(live, arts, t, mode) then AddTo(PlanOf(live, arts, ts, mode), t.ip, MissingFor(live, arts, t, mode))
      else PlanOf(live, arts, ts, mode)
  {
    assert (ts + [t])[..|ts|] == ts;
  }

  /** Every pending target's missing list and address are in the plan. */
  lemma {:induction false} PlanComplete(live: map<Key, Row>, arts: seq<Article>, ts: seq<Target>, mode: Mode, i: nat)
    returns (k: nat)
    requires DistinctIps(ts) && i < |ts| && Pending(live, arts, ts[i], mode)
    ensures var plan := PlanOf(live, arts, ts, mode);
      k < |plan| && plan[k].articles == MissingFor(live, arts, ts[i], mode) && ts[i].ip in plan[k].ips
  {
    var init, t := ts[..|ts| - 1], ts[|ts| - 1];
    PlanHasIps(live, arts, init, mode);
    PlanSourced(live, arts, init, mode);
    PlanNext(live, arts, init, mode, t);
    assert init + [t] == ts;
    if i < |ts| - 1 {
      k := PlanComplete(live, arts, init, mode, i);
      AddToKeeps(PlanOf(live, arts, init, mode), t.ip, MissingFor(live, arts, t, mode), k, ts[i].ip);
    } else {
      k := AddToServes(live, arts, init, mode, PlanOf(live, arts, init, mode), t);
    }
  }

  /** Batch plan: for targets at distinct addresses, target `i` is served by exactly the one parcel
      that holds its missing articles in order, when it misses any, and by none otherwise. */
  lemma PlanExact(live: map<Key, Row>, arts: seq<Article>, ts: seq<Target>, mode: Mode, i: nat, k: nat)
    requires DistinctIps(ts) && i < |ts|
    requires k < |PlanOf(live, arts, ts, mode)|
    ensures Served(live, arts, ts, mode, PlanOf(live, arts, ts, mode), k, i)
    ensures Pending(live, arts, ts[i], mode) ==> HasParcel(live, arts, ts[i], mode, PlanOf(live, arts, ts, mode))
    ensures forall m :: 0 <= m < |PlanOf(live, arts, ts, mode)| && m != k ==>
              PlanOf(live, arts, ts, mode)[m].articles != PlanOf(live, arts, ts, mode)[k].articles
  {
    var plan := PlanOf(live, arts, ts, mode);
    PlanSourced(live, arts, ts, mode);
    PlanHasIps(live, arts, ts, mode);
    if ts[i].ip in plan[k].ips {
      assert FromTarget(live, arts, ts, mode, plan[k], ts[i].ip);
    }
    if Pending(live, arts, ts[i], mode) {
      var m := PlanComplete(live, arts, ts, mode, i);
    }
  }

  lemma MissingNonEmpty(live: map<Key, Row>, keys: seq<string>, arts: seq<Article>, mode: Mode)
    ensures Missing(live, keys, arts, mode) != [] <==>
        exists a :: a in arts && a.url != "" && !Delivered(live, a.url, keys, mode)
  {
    var missing := Missing(live, keys, arts, mode);
    if missing != [] {
      assert missing[0] in missing;
      MissingMember(live, keys, arts, mode, missing[0]);
    }
    if a :| a in arts && a.url != "" && !Delivered(live, a.url, keys, mode) {
      MissingMember(live, keys, arts, mode, a);
    }
  }

  ghost predicate InSomeParcel(plan: seq<Parcel>, url: string) {
    exists k, a :: 0 <= k < |plan| && a in plan[k].articles && a.url == url
  }

  lemma NeededIsPlanned(live: map<Key, Row>, arts: seq<Article>, ts: seq<Target>, mode: Mode, a: Article, i: nat)
    requires DistinctIps(ts) && i < |ts| && ts[i].ip != "" && a in arts && a.url != ""
    requires !Delivered(live, a.url, TargetKeys(ts[i]), mode)
    ensures InSomeParcel(PlanOf(live, arts, ts, mode), a.url)
  {
    MissingMember(live, TargetKeys(ts[i]), arts, mode, a);
    var k := PlanComplete(live, arts, ts, mode, i);
    assert a in PlanOf(live, arts, ts, mode)[k].articles;
  }

  lemma PlannedIsNeeded(live: map<Key, Row>, arts: seq<Article>, ts: seq<Target>, mode: Mode, url: string)
    returns (i: nat)
    requires DistinctIps(ts) && InSomeParcel(PlanOf(live, arts, ts, mode), url)
    ensures i < |ts| && url != "" && !Delivered(live, url, TargetKeys(ts[i]), mode)
  {
    var plan := PlanOf(live, arts, ts, mode);
    var k, b :| 0 <= k < |plan| && b in plan[k].articles && b.url == url;
    PlanSourced(live, arts, ts, mode);
    i := ParcelOrigin(live, arts, ts, mode, plan, k);
    MissingMember(live, TargetKeys(ts[i]), arts, mode, b);
  }

  /** A url is in some parcel exactly when the filter `needs_sync` lets it through. */
  lemma PlannedIffNeeded(live: map<Key, Row>, arts: seq<Article>, ts: seq<Target>, mode: Mode, a: Article)
    requires DistinctIps(ts) && ts != [] && a in arts
    requires forall i :: 0 <= i < |ts| ==> ts[i].ip != "" && TargetKeys(ts[i]) != []
    ensures InSomeParcel(PlanOf(live, arts, ts, mode), a.url) <==>
        Needs(live, a.url, KeyGroups([], AliasGroups(ts)), mode)
  {
    var gs := AliasGroups(ts);
    NonEmptyId(gs);
    if Needs(live, a.url, gs, mode) {
      var i :| 0 <= i < |ts| && !Delivered(live, a.url, TargetKeys(ts[i]), mode);
      NeededIsPlanned(live, arts, ts, mode, a, i);
    }
    if InSomeParcel(PlanOf(live, arts, ts, mode), a.url) {
      var i := PlannedIsNeeded(live, arts, ts, mode, a.url);
      assert !Delivered(live, a.url, gs[i], mode);
    }
  }

  lemma {:induction false} NonEmptyId(gs: seq<seq<string>>)
    requires forall i :: 0 <= i < |gs| ==> gs[i] != []
    ensures NonEmpty(gs) == gs
  {
    if gs != [] { NonEmptyId(gs[..|gs| - 1]); }
  }

  /** The addresses over all parcels are exactly those `resolve_pending_upload_ips` returns. */
  lemma PlannedAddresses(live: map<Key, Row>, arts: seq<Article>, ts: seq<Target>, mode: Mode, ip: string)
    requires DistinctIps(ts)
    ensures (exists k :: 0 <= k < |PlanOf(live, arts, ts, mode)| && ip in PlanOf(live, arts, ts, mode)[k].ips) <==>
            AddressMisses(live, Urls(arts), ts, mode, |ts|, ip)
  {
    var plan := PlanOf(live, arts, ts, mode);
    PlanSourced(live, arts, ts, mode);
    if k :| 0 <= k < |plan| && ip in plan[k].ips {
      assert FromTarget(live, arts, ts, mode, plan[k], ip);
      var i :| 0 <= i < |ts| && ts[i].ip == ip && Pending(live, arts, ts[i], mode);
      PendingMisses(live, arts, ts[i], mode);
    }
    if AddressMisses(live, Urls(arts), ts, mode, |ts|, ip) {
      var i :| 0 <= i < |ts| && ts[i].ip == ip && Misses(live, Urls(arts), ts[i], mode);
      PendingMisses(live, arts, ts[i], mode);
      var k := PlanComplete(live, arts, ts, mode, i);
    }
  }

  lemma PendingMisses(live: map<Key, Row>, arts: seq<Article>, t: Target, mode: Mode)
    ensures Pending(live, arts, t, mode) <==> t.ip != "" && Misses(live, Urls(arts), t, mode)
  {
    MissingNonEmpty(live, TargetKeys(t), arts, mode);
    if a :| a in arts && a.url != "" && !Delivered(live, a.url, TargetKeys(t), mode) {
      var i :| 0 <= i < |arts| && arts[i] == a;
      assert Urls(arts)[i] == a.url;
    }
    if k :| 0 <= k < |Urls(arts)| && Urls(arts)[k] != "" && !Delivered(live, Urls(arts)[k], TargetKeys(t), mode) {
      assert arts[k] in arts;
    }
  }
}
