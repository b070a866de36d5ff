/**
 What a run writes into each row, in which order articles and addresses are planned, and what its verdict means.
 */
module DeliveryRows {
  import opened Ordering
  import opened History
  import opened HistoryRows
  import opened DeviceRegistry
  import opened Delivery
  import opened DeliveryProofs
  import opened DeliveryRuns
  import opened Digest

  // ---------------------------------------------------------------- the articles of a parcel

  /** The missing articles are the ones with a url not delivered yet, in order; `os` are their places. */
  lemma {:induction false} MissingInOrder(live: map<Key, Row>, keys: seq<string>, arts: seq<Article>, mode: Mode)
    returns (os: seq<nat>)
    ensures Rising(os) && |Missing(live, keys, arts, mode)| == |os|
    ensures forall a :: 0 <= a < |os| ==> os[a] < |arts| && Missing(live, keys, arts, mode)[a] == arts[os[a]]
    ensures forall i: nat :: i in os <==> i < |arts| && arts[i].url != "" && !Delivered(live, arts[i].url, keys, mode)
  {
    os := [];
    if arts != [] {
      var a := arts[|arts| - 1];
      os := MissingInOrder(live, keys, arts[..|arts| - 1], mode);
      if a.url != "" && !Delivered(live, a.url, keys, mode) { os := os + [|arts| - 1]; }
    }
  }

  /** `a` is article `j` of source `s`, under the site name it has or that of its source. */
  ghost predicate FromSource(sources: seq<Source>, s: nat, j: nat, a: Article) {
    && s < |sources| && j < |sources[s].articles| && var own := sources[s].articles[j];
    && a.url == own.url && a.title == own.title && a.site == (if own.site != "" then own.site else sources[s].id)
  }

  /** Where the articles of source `s` begin in the digest. */
  function StartOf(sources: seq<Source>, s: nat): nat
    requires s <= |sources|
  {
    if s == 0 then 0 else StartOf(sources, s - 1) + |sources[s - 1].articles|
  }

  /** The digest lists every article of every source, source by source, and nothing else. */
  lemma {:induction false} DigestLists(sources: seq<Source>, s: nat, j: nat)
    requires s < |sources| && j < |sources[s].articles|
    ensures |Flat(sources)| == StartOf(sources, |sources|) && StartOf(sources, s) + j < |Flat(sources)|
    ensures FromSource(sources, s, j, Flat(sources)[StartOf(sources, s) + j])
    decreases |sources|
  {
    var init := sources[..|sources| - 1];
    DigestLength(init);
    StartsAgree(sources, init, |init|);
    if s < |init| {
      DigestLists(init, s, j);
      StartsAgree(sources, init, s);
    }
  }

  lemma {:induction false} DigestLength(sources: seq<Source>)
    ensures |Flat(sources)| == StartOf(sources, |sources|)
  {
    if sources != [] {
      DigestLength(sources[..|sources| - 1]);
      StartsAgree(sources, sources[..|sources| - 1], |sources| - 1);
    }
  }

  lemma {:induction false} StartsAgree(a: seq<Source>, b: seq<Source>, s: nat)
    requires b <= a && s <= |b|
    ensures StartOf(a, s) == StartOf(b, s)
  {
    if s > 0 { StartsAgree(a, b, s - 1); }
  }

  // ---------------------------------------------------------------- the rows of a run

  /** The last article with that url. */
  ghost predicate LastWith(arts: seq<Article>, url: string, i: nat) {
    i < |arts| && arts[i].url == url && forall j :: i < j < |arts| ==> arts[j].url != url
  }

  /** The row an article is recorded with. */
  function RowOf(a: Article, site: string, now: nat): Row {
    Row(if a.site != "" then a.site else site, a.title, At(now))
  }

  /** The last entry for `k` says what the article says. */
  ghost predicate EndsWith(es: seq<MarkEntry>, k: Key, m: nat, a: Article, site: string) {
    LastFor(es, k, m) && es[m].site == (if a.site != "" then a.site else site) && es[m].title == a.title
  }

  lemma EndsAppend(es: seq<MarkEntry>, more: seq<MarkEntry>, k: Key, m: nat, a: Article, site: string)
    requires EndsWith(more, k, m, a, site)
    ensures EndsWith(es + more, k, |es| + m, a, site)
  {
    forall j | |es| + m < j < |es + more| ensures (es + more)[j].key != k { assert more[j - |es|].key != k; }
  }

  lemma EndsBefore(es: seq<MarkEntry>, more: seq<MarkEntry>, k: Key, m: nat, a: Article, site: string)
    requires EndsWith(es, k, m, a, site) && forall j :: 0 <= j < |more| ==> more[j].key != k
    ensures EndsWith(es + more, k, m, a, site)
  {
    forall j | m < j < |es + more| ensures (es + more)[j].key != k {
      if j >= |es| { assert more[j - |es|].key != k; }
    }
  }

  lemma {:induction false} EntriesForEnd(live: map<Key, Row>, device: string, arts: seq<Article>, site: string, k: Key)
    returns (m: nat, i: nat)
    requires k.device == device && k.url != "" && k !in live && HasUrl(arts, k.url)
    ensures LastWith(arts, k.url, i) && EndsWith(EntriesFor(live, device, arts, site), k, m, arts[i], site)
  {
    var init, a := arts[..|arts| - 1], arts[|arts| - 1];
    var es := EntriesFor(live, device, init, site);
    if a.url == k.url {
      i := |init|;
      m := |es|;
    } else {
      var j :| 0 <= j < |arts| && arts[j].url == k.url;
      assert init[j].url == k.url;
      m, i := EntriesForEnd(live, device, init, site, k);
      var last := if a.url != "" && Key(a.url, device) !in live then
          [MarkEntry(Key(a.url, device), OrElse(a.site, site), a.title)] else [];
      EndsBefore(es, last, k, m, init[i], site);
    }
  }

  lemma NoEntry(es: seq<MarkEntry>, k: Key)
    requires !HasEntry(es, k)
    ensures forall j :: 0 <= j < |es| ==> es[j].key != k
  {
  }

  lemma {:induction false} CollectedEnd(live: map<Key, Row>, replies: seq<Reply>, arts: seq<Article>, site: string,
          keys: map<string, string>, k: Key)
    returns (m: nat, i: nat)
    requires k.url != "" && k !in live && HasUrl(arts, k.url) && AckedAs(replies, keys, k.device)
    ensures LastWith(arts, k.url, i) && EndsWith(Collected(live, replies, arts, site, keys), k, m, arts[i], site)
  {
    var init, r := replies[..|replies| - 1], replies[|replies| - 1];
    var es := Collected(live, init, arts, site, keys);
    var more := if r.ok then EntriesFor(live, KeyOf(keys, r.ip), arts, site) else [];
    if r.ok && KeyOf(keys, r.ip) == k.device {
      m, i := EntriesForEnd(live, k.device, arts, site, k);
      EndsAppend(es, more, k, m, arts[i], site);
      m := |es| + m;
    } else {
      var j :| 0 <= j < |replies| && replies[j].ok && KeyOf(keys, replies[j].ip) == k.device;
      assert init[j] == replies[j];
      m, i := CollectedEnd(live, init, arts, site, keys, k);
      if r.ok { EntriesForKeys(live, KeyOf(keys, r.ip), arts, site, k); }
      NoEntry(more, k);
      EndsBefore(es, more, k, m, arts[i], site);
    }
  }

  /** Parcel `b` was the first that delivered `k`. */
  ghost predicate FirstDelivered(plan: seq<Parcel>, replies: seq<seq<Reply>>, keys: map<string, string>, k: Key, n: nat,
          b: nat)
    requires n <= |plan| && n <= |replies|
  {
    && b < n && DeliveredBy(plan, replies, keys, k, b)
    && forall c :: 0 <= c < b ==> !DeliveredBy(plan, replies, keys, k, c)
  }

  /** A row that was there before the run stays as it is.  A new one carries the names of the last article with its url
      in the first parcel that delivered it, the run's site where the article names none, and that parcel's time. */
  lemma {:induction false} RunWritesRow(t: Tables, plan: seq<Parcel>, replies: seq<seq<Reply>>, site: string,
          keys: map<string, string>, clock: seq<nat>, n: nat, k: Key) returns (b: nat, i: nat)
    requires n <= |plan| && n <= |replies| && n <= |clock| && Consistent(t)
    requires k in RunTo(t, plan, replies, site, keys, clock, n).live
    ensures var row := RunTo(t, plan, replies, site, keys, clock, n).live[k];
      if k in t.live then row == t.live[k]
      else
        && FirstDelivered(plan, replies, keys, k, n, b) && LastWith(plan[b].articles, k.url, i)
        && row == RowOf(plan[b].articles[i], site, clock[b])
  {
    b, i := 0, 0;
    if n > 0 {
      var prev := RunTo(t, plan, replies, site, keys, clock, n - 1);
      var es := Collected(prev.live, replies[n - 1], plan[n - 1].articles, site, keys);
      RunRecordsAcknowledged(t, plan, replies, site, keys, clock, n - 1, k);
      CollectedKeys(prev.live, replies[n - 1], plan[n - 1].articles, site, keys, k);
      if k in prev.live {
        b, i := RunWritesRow(t, plan, replies, site, keys, clock, n - 1, k);
        NoEntry(es, k);
        UnmarkedRow(prev, es, clock[n - 1], k);
      } else {
        RunRecordsAcknowledged(t, plan, replies, site, keys, clock, n, k);
        var m;
        b := n - 1;
        NotBefore(plan, replies, keys, k, n);
        m, i := CollectedEnd(prev.live, replies[b], plan[b].articles, site, keys, k);
        MarkedRow(prev, es, clock[b], k, m);
      }
    }
  }

  lemma NotBefore(plan: seq<Parcel>, replies: seq<seq<Reply>>, keys: map<string, string>, k: Key, n: nat)
    requires 0 < n <= |plan| && n <= |replies|
    requires DeliveredTo(plan, replies, keys, k, n) && !DeliveredTo(plan, replies, keys, k, n - 1)
    ensures FirstDelivered(plan, replies, keys, k, n, n - 1)
  {
    var c :| 0 <= c < n && DeliveredBy(plan, replies, keys, k, c);
    assert c == n - 1;
  }

  // ---------------------------------------------------------------- the count of a run

  ghost predicate DistinctUrls(arts: seq<Article>) {
    forall i, j :: 0 <= i < j < |arts| ==> arts[i].url != arts[j].url
  }

  /** The addresses that acknowledged are recorded under different keys, none of them blank. */
  ghost predicate KeysApart(replies: seq<Reply>, keys: map<string, string>) {
    && (forall j :: 0 <= j < |replies| && replies[j].ok ==> KeyOf(keys, replies[j].ip) != "")
    && forall j, k :: 0 <= j < k < |replies| && replies[j].ok && replies[k].ok ==>
         KeyOf(keys, replies[j].ip) != KeyOf(keys, replies[k].ip)
  }

  /** Entries for different new keys. */
  ghost predicate AllNew(live: map<Key, Row>, es: seq<MarkEntry>) {
    && (forall i :: 0 <= i < |es| ==> Named(es[i].key) && es[i].key !in live)
    && forall i, j :: 0 <= i < j < |es| ==> es[i].key != es[j].key
  }

  lemma {:induction false} MarkNew(t: Tables, es: seq<MarkEntry>, now: nat)
    requires AllNew(t.live, es)
    ensures |MarkAll(t, es, now).live| == |t.live| + |es|
  {
    if es != [] {
      var init, e := es[..|es| - 1], es[|es| - 1];
      MarkNew(t, init, now);
      UnmarkedRow(t, init, now, e.key);
      var before := MarkAll(t, init, now).live;
      assert MarkAll(t, es, now).live.Keys == before.Keys + {e.key};
    }
  }

  lemma AllNewAppend(live: map<Key, Row>, es: seq<MarkEntry>, more: seq<MarkEntry>)
    requires AllNew(live, es) && AllNew(live, more) && forall i, j :: 0 <= i < |es| && 0 <= j < |more| ==>
      es[i].key != more[j].key
    ensures AllNew(live, es + more)
  {
  }

  lemma {:induction false} EntriesForNew(live: map<Key, Row>, device: string, arts: seq<Article>, site: string)
    requires device != "" && DistinctUrls(arts)
    ensures AllNew(live, EntriesFor(live, device, arts, site))
    ensures forall i :: 0 <= i < |EntriesFor(live, device, arts, site)| ==>
      var k := EntriesFor(live, device, arts, site)[i].key; k.device == device && HasUrl(arts, k.url)
  {
    if arts != [] {
      var init, a := arts[..|arts| - 1], arts[|arts| - 1];
      var es := EntriesFor(live, device, init, site);
      EntriesForNew(live, device, init, site);
      forall i | 0 <= i < |es| ensures es[i].key.url != a.url && HasUrl(arts, es[i].key.url) {
        var j :| 0 <= j < |init| && init[j].url == es[i].key.url;
        assert arts[j].url != arts[|arts| - 1].url;
      }
      assert HasUrl(arts, a.url);
    }
  }

  lemma {:induction false} CollectedNew(live: map<Key, Row>, replies: seq<Reply>, arts: seq<Article>, site: string,
          keys: map<string, string>)
    requires DistinctUrls(arts) && KeysApart(replies, keys)
    ensures AllNew(live, Collected(live, replies, arts, site, keys))
  {
    if replies != [] {
      var init, r := replies[..|replies| - 1], replies[|replies| - 1];
      var es := Collected(live, init, arts, site, keys);
      CollectedNew(live, init, arts, site, keys);
      if r.ok {
        var more := EntriesFor(live, KeyOf(keys, r.ip), arts, site);
        EntriesForNew(live, KeyOf(keys, r.ip), arts, site);
        forall i, j | 0 <= i < |es| && 0 <= j < |more| ensures es[i].key != more[j].key {
          CollectedKeys(live, init, arts, site, keys, es[i].key);
          assert HasEntry(es, es[i].key);
          var m :| 0 <= m < |init| && init[m].ok && KeyOf(keys, init[m].ip) == es[i].key.device;
          assert replies[m] == init[m];
        }
        AllNewAppend(live, es, more);
      }
    }
  }

  /** The count a run reports is the number of rows it adds, when no parcel carries a url twice and no two of its
      targets share a key. */
  lemma {:induction false} CountIsNewRows(t: Tables, plan: seq<Parcel>, replies: seq<seq<Reply>>, site: string,
          keys: map<string, string>, clock: seq<nat>, n: nat)
    requires n <= |plan| && n <= |replies| && n <= |clock|
    requires forall b :: 0 <= b < n ==> DistinctUrls(plan[b].articles) && KeysApart(replies[b], keys)
    ensures |RunTo(t, plan, replies, site, keys, clock, n).live| ==
      |t.live| + MarkedTo(t, plan, replies, site, keys, clock, n)
  {
    if n > 0 {
      CountIsNewRows(t, plan, replies, site, keys, clock, n - 1);
      var prev := RunTo(t, plan, replies, site, keys, clock, n - 1);
      CollectedNew(prev.live, replies[n - 1], plan[n - 1].articles, site, keys);
      MarkNew(prev, Collected(prev.live, replies[n - 1], plan[n - 1].articles, site, keys), clock[n - 1]);
    }
  }

  // ---------------------------------------------------------------- the order of a plan

  /** A target at `p` comes before one at `q`. */
  ghost predicate Before(ts: seq<Target>, p: string, q: string) {
    exists i, j :: 0 <= i < j < |ts| && ts[i].ip == p && ts[j].ip == q
  }

  /** The addresses of a parcel are in the order of their targets. */
  ghost predicate InTargetOrder(ts: seq<Target>, ips: seq<string>) {
    && ips != [] && (forall x :: 0 <= x < |ips| ==> ips[x] in Ips(ts))
    && forall x, y :: 0 <= x < y < |ips| ==> Before(ts, ips[x], ips[y])
  }

  /** And parcels in that of their first addresses. */
  ghost predicate PlanInOrder(ts: seq<Target>, plan: seq<Parcel>) {
    && (forall b :: 0 <= b < |plan| ==> InTargetOrder(ts, plan[b].ips))
    && (forall b, c :: 0 <= b < c < |plan| ==> Before(ts, plan[b].ips[0], plan[c].ips[0]))
  }

  lemma BeforeMore(ts: seq<Target>, t: Target, p: string, q: string)
    ensures Before(ts, p, q) ==> Before(ts + [t], p, q)
    ensures p in Ips(ts) ==> p in Ips(ts + [t]) && Before(ts + [t], p, t.ip)
    ensures t.ip in Ips(ts + [t])
  {
    var us := ts + [t];
    assert us[|ts|] == t;
    if Before(ts, p, q) {
      var i, j :| 0 <= i < j < |ts| && ts[i].ip == p && ts[j].ip == q;
      assert us[i].ip == p && us[j].ip == q;
    }
    if p in Ips(ts) {
      var i :| 0 <= i < |ts| && ts[i].ip == p;
      assert us[i].ip == p;
    }
  }

  lemma ParcelMore(ts: seq<Target>, t: Target, ips: seq<string>)
    requires InTargetOrder(ts, ips)
    ensures InTargetOrder(ts + [t], ips) && InTargetOrder(ts + [t], ips + [t.ip])
  {
    var more, us := ips + [t.ip], ts + [t];
    forall x | 0 <= x < |more| ensures more[x] in Ips(us) {
      BeforeMore(ts, t, if x < |ips| then ips[x] else t.ip, t.ip);
    }
    forall x, y | 0 <= x < y < |more| ensures Before(us, more[x], more[y]) {
      BeforeMore(ts, t, ips[x], if y < |ips| then ips[y] else t.ip);
    }
    forall x | 0 <= x < |ips| ensures ips[x] in Ips(us) { assert more[x] == ips[x]; }
    forall x, y | 0 <= x < y < |ips| ensures Before(us, ips[x], ips[y]) {
      assert more[x] == ips[x] && more[y] == ips[y];
    }
  }

  lemma OrderMore(ts: seq<Target>, plan: seq<Parcel>, t: Target)
    requires PlanInOrder(ts, plan)
    ensures PlanInOrder(ts + [t], plan)
  {
    forall b | 0 <= b < |plan| ensures InTargetOrder(ts + [t], plan[b].ips) { ParcelMore(ts, t, plan[b].ips); }
    forall b, c | 0 <= b < c < |plan| ensures Before(ts + [t], plan[b].ips[0], plan[c].ips[0]) {
      BeforeMore(ts, t, plan[b].ips[0], plan[c].ips[0]);
    }
  }

  lemma OrderNext(ts: seq<Target>, plan: seq<Parcel>, t: Target, next: seq<Parcel>)
    requires PlanInOrder(ts, plan) && |plan| <= |next| <= |plan| + 1
    requires forall b :: 0 <= b < |plan| ==> next[b].ips == plan[b].ips || next[b].ips == plan[b].ips + [t.ip]
    requires |next| > |plan| ==> next[|plan|].ips == [t.ip]
    ensures PlanInOrder(ts + [t], next)
  {
    forall b | 0 <= b < |next| ensures InTargetOrder(ts + [t], next[b].ips) {
      if b < |plan| { ParcelMore(ts, t, plan[b].ips); } else { BeforeMore(ts, t, t.ip, t.ip); }
    }
    forall b, c | 0 <= b < c < |next| ensures Before(ts + [t], next[b].ips[0], next[c].ips[0]) {
      assert InTargetOrder(ts, plan[b].ips);
      if c == |plan| {
        BeforeMore(ts, t, plan[b].ips[0], t.ip);
      } else {
        BeforeMore(ts, t, plan[b].ips[0], plan[c].ips[0]);
      }
    }
  }

  lemma OrderAdd(ts: seq<Target>, plan: seq<Parcel>, t: Target, missing: seq<Article>)
    requires PlanInOrder(ts, plan) && DistinctPrints(plan)
    ensures PlanInOrder(ts + [t], AddTo(plan, t.ip, missing))
  {
    AddToShape(plan, t.ip, missing);
    OrderNext(ts, plan, t, AddTo(plan, t.ip, missing));
  }

  /** Over any target list: the addresses of a parcel come in the order of the targets, and the parcels in the order of
      their first targets. */
  lemma {:induction false} PlansInOrder(live: map<Key, Row>, arts: seq<Article>, ts: seq<Target>, mode: Mode)
    ensures PlanInOrder(ts, PlanOf(live, arts, ts, mode))
  {
    if ts != [] {
      var init, t := ts[..|ts| - 1], ts[|ts| - 1];
      PlansInOrder(live, arts, init, mode);
      PlanHasIps(live, arts, init, mode);
      assert ts == init + [t];
      OrderMore(init, PlanOf(live, arts, init, mode), t);
      OrderAdd(init, PlanOf(live, arts, init, mode), t, MissingFor(live, arts, t, mode));
    }
  }

  // ---------------------------------------------------------------- the verdict

  /** What an address's entry among the merged answers of a complete run says. */
  lemma ResultOf(live: map<Key, Row>, arts: seq<Article>, ts: seq<Target>, mode: Mode, replies: seq<seq<Reply>>,
          ip: string)
    requires DistinctIps(ts) && Answered(PlanOf(live, arts, ts, mode), replies) &&
      |replies| == |PlanOf(live, arts, ts, mode)|
    ensures ip in ResultsTo(replies, |replies|) <==>
      exists i :: 0 <= i < |ts| && ts[i].ip == ip && Pending(live, arts, ts[i], mode)
    ensures ip in ResultsTo(replies, |replies|) ==> (ResultsTo(replies, |replies|)[ip] <==> Acked(replies, ip))
  {
    var plan := PlanOf(live, arts, ts, mode);
    forall j, k, x | 0 <= j < |plan| && 0 <= k < |plan| && x in plan[j].ips && x in plan[k].ips ensures j == k {
      OneParcelPerIp(live, arts, ts, mode, j, k, x);
    }
    ResultsToShape(plan, replies, |replies|, ip);
    PlannedTargets(live, arts, ts, mode, ip);
    assert Acked(replies, ip) <==> AckedBefore(replies, |replies|, ip);
  }

  /** A run of a plan that was answered in full failed exactly when no pending target acknowledged anything. */
  lemma FailureIffNoneAcknowledged(live: map<Key, Row>, arts: seq<Article>, ts: seq<Target>, mode: Mode,
          replies: seq<seq<Reply>>)
    requires DistinctIps(ts) && Answered(PlanOf(live, arts, ts, mode), replies) &&
      |replies| == |PlanOf(live, arts, ts, mode)|
    ensures UploadAnyOk(ResultsTo(replies, |replies|)) <==>
      exists i :: 0 <= i < |ts| && Pending(live, arts, ts[i], mode) && Acked(replies, ts[i].ip)
  {
    var results := ResultsTo(replies, |replies|);
    if UploadAnyOk(results) {
      var ip :| ip in results && results[ip];
      ResultOf(live, arts, ts, mode, replies, ip);
    }
    if i :| 0 <= i < |ts| && Pending(live, arts, ts[i], mode) && Acked(replies, ts[i].ip) {
      ResultOf(live, arts, ts, mode, replies, ts[i].ip);
      assert ts[i].ip in results;
    }
  }
}
