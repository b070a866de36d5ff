/**
 Delivery planning and recording.  Reader targets are grouped by the exact set of articles they
 miss, every group is uploaded as one file, and every acknowledged copy is recorded under the
 target's stable key.  The upload itself is an oracle: it answers for the addresses it was given.
 */
module Delivery {
  import opened History
  import opened DeviceRegistry

  const LEGACY_HOST := "crosspoint.local"
  const DEFAULT_NAME := "reader"

  datatype Target = Target(name: string, ip: string, id: string, historyKey: string, aliasKeys: seq<string>)

  datatype Article = Article(url: string, site: string, title: string)

  /** One upload: the addresses it goes to and the articles it carries. */
  datatype Parcel = Parcel(ips: seq<string>, articles: seq<Article>)

  /** One answer of the uploader; a list of them in order of completion is its result dictionary. */
  datatype Reply = Reply(ip: string, ok: bool)

  // ---------------------------------------------------------------- targets

  function OrElse(a: string, b: string): string {
    if a != "" then a else b
  }

  function PrimaryTarget(cfg: Config): Target {
    Target(DEFAULT_NAME, cfg.host, cfg.primaryId, OrElse(cfg.primaryId, cfg.host),
           TextList([cfg.primaryId] + cfg.primaryAliases + [cfg.host, LEGACY_HOST]))
  }

  function DeviceTarget(d: Device): Target {
    Target(OrElse(d.name, d.ip), d.ip, d.id, OrElse(d.id, d.ip), TextList([d.id] + d.aliases + [d.ip]))
  }

  function Ips(ts: seq<Target>): (s: set<string>)
    ensures forall i :: 0 <= i < |ts| ==> ts[i].ip in s
  {
    set i | 0 <= i < |ts| :: ts[i].ip
  }

  /** The targets after the primary reader and the first `n` extra readers. */
  function TargetsTo(cfg: Config, n: nat): seq<Target>
    requires n <= |cfg.devices|
  {
    if n == 0 then (if cfg.host == "" then [] else [PrimaryTarget(cfg)])
    else
      var ts, d := TargetsTo(cfg, n - 1), cfg.devices[n - 1];
      if d.ip == "" || d.ip in Ips(ts) then ts else ts + [DeviceTarget(d)]
  }

  function TargetsOf(cfg: Config): seq<Target> {
    TargetsTo(cfg, |cfg.devices|)
  }

  method BuildTargetsWithKeys(cfg: Config) returns (targets: seq<Target>)
    ensures targets == TargetsOf(cfg)
  {
    targets := [];
    var seen: set<string> := {};
    if cfg.host != "" {
      targets, seen := [PrimaryTarget(cfg)], {cfg.host};
      assert targets[0].ip in Ips(targets);
    }
    for n := 0 to |cfg.devices|
      invariant targets == TargetsTo(cfg, n) && seen == Ips(targets)
    {
      var d := cfg.devices[n];
      if d.ip == "" || d.ip in seen { continue; }
      ghost var before := targets;
      targets, seen := targets + [DeviceTarget(d)], seen + {d.ip};
      forall x ensures x in seen <==> x in Ips(targets) {
        if x in Ips(before) { var i :| 0 <= i < |before| && before[i].ip == x; assert targets[i].ip == x; }
        if x == d.ip { assert targets[|before|].ip == x; }
      }
    }
  }

  function TargetKeys(t: Target): seq<string> {
    if t.aliasKeys != [] then Without(t.aliasKeys, "") else TextList([OrElse(t.historyKey, t.ip), t.ip])
  }

  /** `alias_key_groups`. */
  function AliasGroups(ts: seq<Target>): (gs: seq<seq<string>>)
    ensures |gs| == |ts| && forall i :: 0 <= i < |ts| ==> gs[i] == TargetKeys(ts[i])
  {
    seq(|ts|, i requires 0 <= i < |ts| => TargetKeys(ts[i]))
  }

  /** `ip_to_history_key_map`: address to the key its deliveries are recorded under. */
  function KeyMap(ts: seq<Target>): map<string, string> {
    if ts == [] then map[]
    else
      var m, t := KeyMap(ts[..|ts| - 1]), ts[|ts| - 1];
      if t.ip == "" then m else m[t.ip := OrElse(t.historyKey, t.ip)]
  }

  function KeyOf(m: map<string, string>, ip: string): string {
    if ip in m then m[ip] else ip
  }

  // ---------------------------------------------------------------- what a target misses

  predicate Delivered(live: map<Key, Row>, url: string, keys: seq<string>, mode: Mode) {
    if mode == GlobalUrl then SyncedUrl(live, url) else SyncedForAny(live, url, keys)
  }

  function Missing(live: map<Key, Row>, keys: seq<string>, arts: seq<Article>, mode: Mode): seq<Article> {
    if arts == [] then []
    else
      var a := arts[|arts| - 1];
      Missing(live, keys, arts[..|arts| - 1], mode) +
      (if a.url != "" && !Delivered(live, a.url, keys, mode) then [a] else [])
  }

  function MissingFor(live: map<Key, Row>, arts: seq<Article>, t: Target, mode: Mode): seq<Article> {
    Missing(live, TargetKeys(t), arts, mode)
  }

  /** The fingerprint of a list of articles. */
  function Urls(arts: seq<Article>): (us: seq<string>)
    ensures |us| == |arts| && forall i :: 0 <= i < |arts| ==> us[i] == arts[i].url
  {
    seq(|arts|, i requires 0 <= i < |arts| => arts[i].url)
  }

  // ---------------------------------------------------------------- the plan

  /** `ip` joins the parcel with the same fingerprint, or opens a new one at the end. */
  function AddTo(plan: seq<Parcel>, ip: string, missing: seq<Article>): seq<Parcel> {
    if plan == [] then [Parcel([ip], missing)]
    else if Urls(plan[0].articles) == Urls(missing) then [Parcel(plan[0].ips + [ip], plan[0].articles)] + plan[1..]
    else [plan[0]] + AddTo(plan[1..], ip, missing)
  }

  /** A target to serve: it has an address and misses something. */
  predicate Pending(live: map<Key, Row>, arts: seq<Article>, t: Target, mode: Mode) {
    t.ip != "" && MissingFor(live, arts, t, mode) != []
  }

  function PlanOf(live: map<Key, Row>, arts: seq<Article>, ts: seq<Target>, mode: Mode): seq<Parcel> {
    if ts == [] then []
    else
      var plan, t := PlanOf(live, arts, ts[..|ts| - 1], mode), ts[|ts| - 1];
      if Pending(live, arts, t, mode) then AddTo(plan, t.ip, MissingFor(live, arts, t, mode)) else plan
  }

  method CollectMissing(live: map<Key, Row>, arts: seq<Article>, t: Target, mode: Mode) returns (missing: seq<Article>)
    ensures missing == MissingFor(live, arts, t, mode)
  {
    var keys := TargetKeys(t);
    missing := [];
    for i := 0 to |arts|
      invariant missing == Missing(live, keys, arts[..i], mode)
    {
      assert arts[..i + 1][..i] == arts[..i];
      if arts[i].url == "" { continue; }
      var synced := Delivered(live, arts[i].url, keys, mode);
      if !synced { missing := missing + [arts[i]]; }
    }
    assert arts[..|arts|] == arts;
  }

  ghost predicate HoldsAt(grouped: map<seq<string>, Parcel>, order: seq<seq<string>>, plan: seq<Parcel>, k: nat)
    requires k < |plan| == |order|
  {
    order[k] in grouped && grouped[order[k]] == plan[k] && order[k] == Urls(plan[k].articles)
  }

  ghost predicate DistinctPrints(plan: seq<Parcel>) {
    forall j, k :: 0 <= j < k < |plan| ==> Urls(plan[j].articles) != Urls(plan[k].articles)
  }

  /** The dictionary holds the plan, keyed by fingerprint, in insertion order. */
  ghost predicate Holds(grouped: map<seq<string>, Parcel>, order: seq<seq<string>>, plan: seq<Parcel>) {
    && |order| == |plan| && DistinctPrints(plan)
    && (forall f :: f in grouped <==> f in order)
    && (forall k {:trigger HoldsAt(grouped, order, plan, k)} :: 0 <= k < |plan| ==> HoldsAt(grouped, order, plan, k))
  }

  /** What `AddTo` does, parcel by parcel, when fingerprints are distinct. */
  lemma {:induction false} AddToShape(plan: seq<Parcel>, ip: string, missing: seq<Article>)
    requires DistinctPrints(plan)
    ensures var next := AddTo(plan, ip, missing);
      && |plan| <= |next| <= |plan| + 1
      && (|next| == |plan| <==> exists k :: 0 <= k < |plan| && Urls(plan[k].articles) == Urls(missing))
      && (|next| > |plan| ==> next[|plan|] == Parcel([ip], missing))
      && (forall k :: 0 <= k < |plan| ==>
            next[k] == if Urls(plan[k].articles) == Urls(missing) then Parcel(plan[k].ips + [ip], plan[k].articles)
                else plan[k])
  {
    if plan != [] && Urls(plan[0].articles) != Urls(missing) {
      var rest := plan[1..];
      AddToShape(rest, ip, missing);
      if k :| 0 <= k < |plan| && Urls(plan[k].articles) == Urls(missing) { assert rest[k - 1] == plan[k]; }
      if k :| 0 <= k < |rest| && Urls(rest[k].articles) == Urls(missing) { assert plan[k + 1] == rest[k]; }
    }
  }

  lemma HoldsJoin(grouped: map<seq<string>, Parcel>, order: seq<seq<string>>, plan: seq<Parcel>, ip: string,
          missing: seq<Article>)
    requires Holds(grouped, order, plan) && Urls(missing) in grouped
    ensures var f := Urls(missing);
      Holds(grouped[f := Parcel(grouped[f].ips + [ip], grouped[f].articles)], order, AddTo(plan, ip, missing))
  {
    AddToShape(plan, ip, missing);
    var f, next := Urls(missing), AddTo(plan, ip, missing);
    var now := grouped[f := Parcel(grouped[f].ips + [ip], grouped[f].articles)];
    var m :| 0 <= m < |order| && order[m] == f;
    assert HoldsAt(grouped, order, plan, m);
    forall k | 0 <= k < |next| ensures HoldsAt(now, order, next, k) {
      assert HoldsAt(grouped, order, plan, k);
    }
  }

  lemma HoldsNew(grouped: map<seq<string>, Parcel>, order: seq<seq<string>>, plan: seq<Parcel>, ip: string,
          missing: seq<Article>)
    requires Holds(grouped, order, plan) && Urls(missing) !in grouped
    ensures var f := Urls(missing);
      Holds(grouped[f := Parcel([ip], missing)], order + [f], AddTo(plan, ip, missing))
  {
    AddToShape(plan, ip, missing);
    var f, next := Urls(missing), AddTo(plan, ip, missing);
    var now := grouped[f := Parcel([ip], missing)];
    forall k | 0 <= k < |plan| ensures Urls(plan[k].articles) != f {
      assert HoldsAt(grouped, order, plan, k);
    }
    forall k | 0 <= k < |next| ensures HoldsAt(now, order + [f], next, k) {
      if k < |plan| { assert HoldsAt(grouped, order, plan, k); }
    }
  }

  /** `group_articles_by_pending_targets`. */
  method GroupArticlesByPendingTargets(live: map<Key, Row>, arts: seq<Article>, ts: seq<Target>, mode: Mode)
    returns (plan: seq<Parcel>)
    ensures plan == PlanOf(live, arts, ts, mode)
  {
    var grouped: map<seq<string>, Parcel> := map[];
    var order: seq<seq<string>> := [];
    for i := 0 to |ts|
      invariant Holds(grouped, order, PlanOf(live, arts, ts[..i], mode))
    {
      assert ts[..i + 1][..i] == ts[..i];
      if ts[i].ip == "" { continue; }
      var missing := CollectMissing(live, arts, ts[i], mode);
      if missing == [] { continue; }
      var f := Urls(missing);
      if f in grouped {
        HoldsJoin(grouped, order, PlanOf(live, arts, ts[..i], mode), ts[i].ip, missing);
        grouped := grouped[f := Parcel(grouped[f].ips + [ts[i].ip], grouped[f].articles)];
      } else {
        HoldsNew(grouped, order, PlanOf(live, arts, ts[..i], mode), ts[i].ip, missing);
        grouped, order := grouped[f := Parcel([ts[i].ip], missing)], order + [f];
      }
    }
    assert ts[..|ts|] == ts;
    forall k | 0 <= k < |order| ensures order[k] in grouped && grouped[order[k]] == PlanOf(live, arts, ts, mode)[k] {
      assert HoldsAt(grouped, order, PlanOf(live, arts, ts, mode), k);
    }
    plan := seq(|order|, k requires 0 <= k < |order| && order[k] in grouped => grouped[order[k]]);
  }

  /** Some of the urls is still to be delivered to the target. */
  predicate Misses(live: map<Key, Row>, urls: seq<string>, t: Target, mode: Mode) {
    exists k :: 0 <= k < |urls| && urls[k] != "" && !Delivered(live, urls[k], TargetKeys(t), mode)
  }

  /** Among the first `n` targets one at `ip` misses something. */
  ghost predicate AddressMisses(live: map<Key, Row>, urls: seq<string>, ts: seq<Target>, mode: Mode, n: nat, ip: string)
    requires n <= |ts|
  {
    ip != "" && exists i :: 0 <= i < n && ts[i].ip == ip && Misses(live, urls, ts[i], mode)
  }

  lemma AddressStep(live: map<Key, Row>, urls: seq<string>, ts: seq<Target>, mode: Mode, n: nat, ip: string)
    requires n < |ts|
    ensures AddressMisses(live, urls, ts, mode, n + 1, ip) <==>
      AddressMisses(live, urls, ts, mode, n, ip) || (ip != "" && ts[n].ip == ip && Misses(live, urls, ts[n], mode))
  {
  }

  /** `resolve_pending_upload_ips`: the addresses, each once, at which something is missing. */
  method ResolvePendingUploadIps(live: map<Key, Row>, urls: seq<string>, ts: seq<Target>, mode: Mode)
    returns (pending: seq<string>)
    ensures forall ip :: ip in pending <==> AddressMisses(live, urls, ts, mode, |ts|, ip)
    ensures forall j, k :: 0 <= j < k < |pending| ==> pending[j] != pending[k]
  {
    pending := [];
    if (forall k :: 0 <= k < |urls| ==> urls[k] == "") || ts == [] { return; }
    if mode == GlobalUrl && (forall k :: 0 <= k < |urls| && urls[k] != "" ==> SyncedUrl(live, urls[k])) { return; }
    for i := 0 to |ts|
      invariant forall ip :: ip in pending <==> AddressMisses(live, urls, ts, mode, i, ip)
      invariant forall j, k :: 0 <= j < k < |pending| ==> pending[j] != pending[k]
    {
      forall ip ensures AddressMisses(live, urls, ts, mode, i + 1, ip) <==>
        AddressMisses(live, urls, ts, mode, i, ip) || (ip != "" && ts[i].ip == ip && Misses(live, urls, ts[i], mode))
      {
        AddressStep(live, urls, ts, mode, i, ip);
      }
      if ts[i].ip == "" || ts[i].ip in pending { continue; }
      var keys := TargetKeys(ts[i]);
      var misses :=
        mode == GlobalUrl || exists k :: 0 <= k < |urls| && urls[k] != "" && !SyncedForAny(live, urls[k], keys);
      assert misses <==> Misses(live, urls, ts[i], mode);
      if misses { pending := pending + [ts[i].ip]; }
    }
  }

  // ---------------------------------------------------------------- recording

  /** The rows one acknowledged address adds for the articles of its parcel. */
  function EntriesFor(live: map<Key, Row>, key: string, arts: seq<Article>, site: string): seq<MarkEntry> {
    if arts == [] then []
    else
      var a := arts[|arts| - 1];
      EntriesFor(live, key, arts[..|arts| - 1], site) +
      (if a.url != "" && Key(a.url, key) !in live then [MarkEntry(Key(a.url, key), OrElse(a.site, site), a.title)]
          else [])
  }

  function Collected(live: map<Key, Row>, replies: seq<Reply>, arts: seq<Article>, site: string, keys: map<string,
          string>): seq<MarkEntry> {
    if replies == [] then []
    else
      var r := replies[|replies| - 1];
      Collected(live, replies[..|replies| - 1], arts, site, keys) +
      (if r.ok then EntriesFor(live, KeyOf(keys, r.ip), arts, site) else [])
  }

  /** `collect_mark_entries`; the database answers "not synced" for a blank device key. */
  method CollectMarkEntries(db: SyncHistoryDb, replies: seq<Reply>, arts: seq<Article>, site: string,
          keys: map<string, string>)
    returns (entries: seq<MarkEntry>)
    ensures entries == Collected(db.synced, replies, arts, site, keys)
  {
    entries := [];
    for i := 0 to |replies|
      invariant entries == Collected(db.synced, replies[..i], arts, site, keys)
    {
      assert replies[..i + 1][..i] == replies[..i];
      if !replies[i].ok { continue; }
      var key := KeyOf(keys, replies[i].ip);
      ghost var before := entries;
      for k := 0 to |arts|
        invariant entries == before + EntriesFor(db.synced, key, arts[..k], site)
      {
        assert arts[..k + 1][..k] == arts[..k];
        if arts[k].url == "" || Key(arts[k].url, key) in db.synced { continue; }
        entries := entries + [MarkEntry(Key(arts[k].url, key), OrElse(arts[k].site, site), arts[k].title)];
      }
      assert arts[..|arts|] == arts;
    }
    assert replies[..|replies|] == replies;
  }

  /** The uploader answers for exactly the addresses it was given, once each. */
  ghost predicate Answers(replies: seq<Reply>, ips: seq<string>) {
    && (forall ip :: ip in ips <==> exists k :: 0 <= k < |replies| && replies[k].ip == ip)
    && (forall j, k :: 0 <= j < k < |replies| ==> replies[j].ip != replies[k].ip)
  }

  /** The tables after the first `n` parcels were uploaded and recorded. */
  function RunTo(t: Tables, plan: seq<Parcel>, replies: seq<seq<Reply>>, site: string, keys: map<string, string>,
          clock: seq<nat>, n: nat): Tables
    requires n <= |plan| && n <= |replies| && n <= |clock|
  {
    if n == 0 then t
    else
      var prev := RunTo(t, plan, replies, site, keys, clock, n - 1);
      MarkAll(prev, Collected(prev.live, replies[n - 1], plan[n - 1].articles, site, keys), clock[n - 1])
  }

  /** The entries recorded for the first `n` parcels. */
  function MarkedTo(t: Tables, plan: seq<Parcel>, replies: seq<seq<Reply>>, site: string, keys: map<string, string>,
          clock: seq<nat>, n: nat): nat
    requires n <= |plan| && n <= |replies| && n <= |clock|
  {
    if n == 0 then 0
    else
      var before := RunTo(t, plan, replies, site, keys, clock, n - 1);
      MarkedTo(t, plan, replies, site, keys, clock, n - 1) +
      |Collected(before.live, replies[n - 1], plan[n - 1].articles, site, keys)|
  }

  function Results(replies: seq<Reply>): map<string, bool> {
    if replies == [] then map[]
        else Results(replies[..|replies| - 1])[replies[|replies| - 1].ip := replies[|replies| - 1].ok]
  }

  /** `upload_results` after the first `n` parcels. */
  function ResultsTo(replies: seq<seq<Reply>>, n: nat): map<string, bool>
    requires n <= |replies|
  {
    if n == 0 then map[] else ResultsTo(replies, n - 1) + Results(replies[n - 1])
  }

  function PendingIps(plan: seq<Parcel>): (ips: seq<string>) {
    if plan == [] then [] else PendingIps(plan[..|plan| - 1]) + plan[|plan| - 1].ips
  }

  predicate UploadAllOk(results: map<string, bool>, pending: seq<string>) {
    && |results| > 0 && pending != []
    && (forall ip :: ip in results ==> results[ip])
    && results.Keys == (set ip | ip in pending)
  }

  predicate UploadAnyOk(results: map<string, bool>) {
    |results| > 0 && exists ip :: ip in results && results[ip]
  }

  datatype SiteResult = NothingPending | Cancelled | Succeeded | Partial | Failed

  /** What one answered parcel adds: the acknowledged entries, recorded in one go. */
  method RecordParcel(db: SyncHistoryDb, parcel: Parcel, replies: seq<Reply>, site: string, keys: map<string, string>,
          now: nat) returns (added: nat)
    requires db.Valid()
    modifies db
    ensures db.Valid()
    ensures var entries := Collected(old(db.synced), replies, parcel.articles, site, keys);
      db.Content() == MarkAll(old(db.Content()), entries, now) && added == |entries|
    ensures db.Content() != old(db.Content()) ==> added > 0
  {
    added := 0;
    var entries := CollectMarkEntries(db, replies, parcel.articles, site, keys);
    if entries != [] {
      var saved := db.MarkSyncedMany(entries, now);
      added := |entries|;
    }
  }

  /** Where a run stands after `n` parcels. */
  ghost predicate Standing(t: Tables, plan: seq<Parcel>, replies: seq<seq<Reply>>, site: string,
          keys: map<string, string>, clock: seq<nat>, n: nat, now: Tables, marked: nat, results: map<string, bool>)
  {
    && n <= |plan| && n <= |replies| && n <= |clock|
    && now == RunTo(t, plan, replies, site, keys, clock, n)
    && marked == MarkedTo(t, plan, replies, site, keys, clock, n)
    && results == ResultsTo(replies, n)
    && (now != t ==> marked > 0)
  }

  lemma StandingStep(t: Tables, plan: seq<Parcel>, replies: seq<seq<Reply>>, site: string, keys: map<string, string>,
          clock: seq<nat>, n: nat, before: Tables, now: Tables, marked: nat, results: map<string, bool>, added: nat)
    requires Standing(t, plan, replies, site, keys, clock, n, before, marked, results)
    requires n < |plan| && n < |replies| && n < |clock|
    requires var entries := Collected(before.live, replies[n], plan[n].articles, site, keys);
      now == MarkAll(before, entries, clock[n]) && added == |entries|
    requires now != before ==> added > 0
    ensures Standing(t, plan, replies, site, keys, clock, n + 1, now, marked + added, results + Results(replies[n]))
  {
  }

  /** One site: plan, then upload and record parcel by parcel.  `replies` are the uploader's answers;
      a run that is cancelled before parcel `n` has `n` of them. */
  method SyncSite(db: SyncHistoryDb, arts: seq<Article>, ts: seq<Target>, mode: Mode, site: string,
          replies: seq<seq<Reply>>, clock: seq<nat>)
    returns (result: SiteResult, marked: nat)
    requires db.Valid() && |clock| >= |replies|
    requires |replies| <= |PlanOf(db.synced, arts, ts, mode)|
    modifies db
    ensures db.Valid()
    ensures var plan := PlanOf(old(db.synced), arts, ts, mode);
      && db.Content() == RunTo(old(db.Content()), plan, replies, site, KeyMap(ts), clock, |replies|)
      && result == (if plan == [] then NothingPending
                    else if |replies| < |plan| then Cancelled
                    else if !UploadAnyOk(ResultsTo(replies, |plan|)) then Failed
                    else if UploadAllOk(ResultsTo(replies, |plan|), PendingIps(plan)) then Succeeded else Partial)
    ensures marked == MarkedTo(old(db.Content()), PlanOf(old(db.synced), arts, ts, mode), replies, site, KeyMap(ts),
        clock, |replies|)
    ensures db.Content() != old(db.Content()) ==> marked > 0
  {
    marked := 0;
    ghost var t := db.Content();
    var plan := GroupArticlesByPendingTargets(db.synced, arts, ts, mode);
    PlanHasIps(db.synced, arts, ts, mode);
    var pending := PendingIps(plan);
    if pending == [] {
      return NothingPending, 0;
    }
    var keys := KeyMap(ts);
    var results: map<string, bool> := map[];
    for n := 0 to |plan|
      invariant db.Valid() && n <= |replies|
      invariant Standing(t, plan, replies, site, keys, clock, n, db.Content(), marked, results)
    {
      if n == |replies| { return Cancelled, marked; }
      ghost var before := db.Content();
      var added := RecordParcel(db, plan[n], replies[n], site, keys, clock[n]);
      StandingStep(t, plan, replies, site, keys, clock, n, before, db.Content(), marked, results, added);
      results := results + Results(replies[n]);
      marked := marked + added;
    }
    if !UploadAnyOk(results) { return Failed, marked; }
    if UploadAllOk(results, pending) { return Succeeded, marked; }
    return Partial, marked;
  }

  ghost predicate Served(plan: seq<Parcel>) {
    DistinctPrints(plan) && forall k :: 0 <= k < |plan| ==> plan[k].ips != [] && plan[k].articles != []
  }

  lemma ServedAppend(plan: seq<Parcel>, ip: string, missing: seq<Article>)
    requires Served(plan) && missing != []
    ensures Served(AddTo(plan, ip, missing))
  {
    AddToShape(plan, ip, missing);
  }

  lemma {:induction false} PlanHasIps(live: map<Key, Row>, arts: seq<Article>, ts: seq<Target>, mode: Mode)
    ensures var plan := PlanOf(live, arts, ts, mode);
      DistinctPrints(plan) && forall k :: 0 <= k < |plan| ==> plan[k].ips != [] && plan[k].articles != []
  {
    if ts != [] {
      var t, plan := ts[|ts| - 1], PlanOf(live, arts, ts[..|ts| - 1], mode);
      PlanHasIps(live, arts, ts[..|ts| - 1], mode);
      if Pending(live, arts, t, mode) { ServedAppend(plan, t.ip, MissingFor(live, arts, t, mode)); }
    }
  }
}
