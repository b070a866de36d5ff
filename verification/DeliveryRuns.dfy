/**
 What a run leaves in the history, and what planning again asks for.
 */
module DeliveryRuns {
  import opened Lww
  import opened History
  import opened DeviceRegistry
  import opened Delivery
  import opened DeliveryProofs

  // ---------------------------------------------------------------- the rows a run adds

  ghost predicate HasUrl(arts: seq<Article>, url: string) {
    exists i :: 0 <= i < |arts| && arts[i].url == url
  }

  /** An address that acknowledged and is recorded under `device`. */
  ghost predicate AckedAs(replies: seq<Reply>, keys: map<string, string>, device: string) {
    exists k :: 0 <= k < |replies| && replies[k].ok && KeyOf(keys, replies[k].ip) == device
  }

  ghost predicate HasEntry(es: seq<MarkEntry>, k: Key) {
    exists i :: 0 <= i < |es| && es[i].key == k
  }

  lemma EntryAppend(es: seq<MarkEntry>, more: seq<MarkEntry>, k: Key)
    ensures HasEntry(es + more, k) <==> HasEntry(es, k) || HasEntry(more, k)
  {
    if i :| 0 <= i < |es| && es[i].key == k { assert (es + more)[i].key == k; }
    if i :| 0 <= i < |more| && more[i].key == k { assert (es + more)[|es| + i].key == k; }
  }

  lemma {:induction false} EntriesForKeys(live: map<Key, Row>, device: string, arts: seq<Article>, site: string, k: Key)
    ensures HasEntry(EntriesFor(live, device, arts, site), k) <==>
            k.device == device && k.url != "" && k !in live && HasUrl(arts, k.url)
  {
    if arts != [] {
      var init, a := arts[..|arts| - 1], arts[|arts| - 1];
      EntriesForKeys(live, device, init, site, k);
      var last := if a.url != "" && Key(a.url, device) !in live then
          [MarkEntry(Key(a.url, device), OrElse(a.site, site), a.title)] else [];
      EntryAppend(EntriesFor(live, device, init, site), last, k);
      assert HasUrl(arts, k.url) <==> HasUrl(init, k.url) || a.url == k.url by {
        if i :| 0 <= i < |init| && init[i].url == k.url { assert arts[i].url == k.url; }
      }
      if last != [] { assert last[0].key == Key(a.url, device); }
    }
  }

  lemma {:induction false} CollectedKeys(live: map<Key, Row>, replies: seq<Reply>, arts: seq<Article>, site: string,
          keys: map<string, string>, k: Key)
    ensures HasEntry(Collected(live, replies, arts, site, keys), k) <==>
            k.url != "" && k !in live && HasUrl(arts, k.url) && AckedAs(replies, keys, k.device)
  {
    if replies != [] {
      var init, r := replies[..|replies| - 1], replies[|replies| - 1];
      CollectedKeys(live, init, arts, site, keys, k);
      EntriesForKeys(live, KeyOf(keys, r.ip), arts, site, k);
      EntryAppend(Collected(live, init, arts, site, keys), if r.ok then EntriesFor(live, KeyOf(keys, r.ip), arts, site)
          else [], k);
      assert AckedAs(replies, keys, k.device) <==>
          AckedAs(init, keys, k.device) || (r.ok && KeyOf(keys, r.ip) == k.device) by {
        if i :| 0 <= i < |init| && init[i].ok && KeyOf(keys, init[i].ip) == k.device { assert replies[i] == init[i]; }
      }
    }
  }

  /** Parcel `b` delivered the url to a target recorded under the device. */
  ghost predicate DeliveredBy(plan: seq<Parcel>, replies: seq<seq<Reply>>, keys: map<string, string>, k: Key, b: nat)
    requires b < |plan| && b < |replies|
  {
    HasUrl(plan[b].articles, k.url) && AckedAs(replies[b], keys, k.device)
  }

  ghost predicate DeliveredTo(plan: seq<Parcel>, replies: seq<seq<Reply>>, keys: map<string, string>, k: Key, n: nat)
    requires n <= |plan| && n <= |replies|
  {
    exists b :: 0 <= b < n && DeliveredBy(plan, replies, keys, k, b)
  }

  /** A run adds exactly the (url, key) pairs that were acknowledged, and removes none. */
  lemma {:induction false} RunRecordsAcknowledged(t: Tables, plan: seq<Parcel>, replies: seq<seq<Reply>>, site: string,
          keys: map<string, string>, clock: seq<nat>, n: nat, k: Key)
    requires n <= |plan| && n <= |replies| && n <= |clock| && Consistent(t)
    ensures Consistent(RunTo(t, plan, replies, site, keys, clock, n))
    ensures k in RunTo(t, plan, replies, site, keys, clock, n).live <==>
            k in t.live || (Named(k) && DeliveredTo(plan, replies, keys, k, n))
  {
    if n > 0 {
      RunRecordsAcknowledged(t, plan, replies, site, keys, clock, n - 1, k);
      var prev := RunTo(t, plan, replies, site, keys, clock, n - 1);
      var es := Collected(prev.live, replies[n - 1], plan[n - 1].articles, site, keys);
      CollectedKeys(prev.live, replies[n - 1], plan[n - 1].articles, site, keys, k);
      MarkAllStatus(prev, es, clock[n - 1], k);
      assert DeliveredTo(plan, replies, keys, k, n) <==>
             DeliveredTo(plan, replies, keys, k, n - 1) || DeliveredBy(plan, replies, keys, k, n - 1);
      assert HasEntry(es, k) <==> exists i :: 0 <= i < |es| && es[i].key == k;
      assert k in MarkAll(prev, es, clock[n - 1]).live <==> Status(MarkAll(prev, es, clock[n - 1]), k).Live?;
    }
  }

  // ---------------------------------------------------------------- targets that acknowledged

  /** Target lists as `build_targets_with_keys` makes them. */
  ghost predicate GoodTargets(ts: seq<Target>) {
    && DistinctIps(ts)
    && forall i :: 0 <= i < |ts| ==> ts[i].ip != "" && ts[i].historyKey != "" && ts[i].historyKey in TargetKeys(ts[i])
  }

  lemma {:induction false} KeyOfTarget(ts: seq<Target>, i: nat)
    requires GoodTargets(ts) && i < |ts|
    ensures KeyOf(KeyMap(ts), ts[i].ip) == ts[i].historyKey
  {
    if i < |ts| - 1 { KeyOfTarget(ts[..|ts| - 1], i); }
  }

  /** Answers came for the first parcels of the plan, each for its own addresses. */
  ghost predicate Answered(plan: seq<Parcel>, replies: seq<seq<Reply>>) {
    |replies| <= |plan| && forall b :: 0 <= b < |replies| ==> Answers(replies[b], plan[b].ips)
  }

  ghost predicate AckedIn(replies: seq<Reply>, ip: string) {
    exists k :: 0 <= k < |replies| && replies[k].ok && replies[k].ip == ip
  }

  /** Some parcel was acknowledged from `ip`. */
  ghost predicate Acked(replies: seq<seq<Reply>>, ip: string) {
    exists b :: 0 <= b < |replies| && AckedIn(replies[b], ip)
  }

  /** Target `j` acknowledged a parcel with the url. */
  ghost predicate Gave(live: map<Key, Row>, arts: seq<Article>, ts: seq<Target>, mode: Mode, replies: seq<seq<Reply>>,
          url: string, j: nat)
    requires j < |ts|
  {
    Acked(replies, ts[j].ip) && HasUrl(MissingFor(live, arts, ts[j], mode), url)
  }

  lemma DeliveredHasTarget(live: map<Key, Row>, arts: seq<Article>, ts: seq<Target>, mode: Mode, plan: seq<Parcel>,
          replies: seq<seq<Reply>>, k: Key, b: nat)
    returns (j: nat)
    requires GoodTargets(ts) && Answered(plan, replies) && Sourced(live, arts, ts, mode, plan)
    requires b < |replies| && DeliveredBy(plan, replies, KeyMap(ts), k, b)
    ensures j < |ts| && ts[j].historyKey == k.device && Gave(live, arts, ts, mode, replies, k.url, j)
  {
    var m :| 0 <= m < |replies[b]| && replies[b][m].ok && KeyOf(KeyMap(ts), replies[b][m].ip) == k.device;
    var ip := replies[b][m].ip;
    assert Answers(replies[b], plan[b].ips);
    assert FromTarget(live, arts, ts, mode, plan[b], ip);
    j :| 0 <= j < |ts| && ts[j].ip == ip && MissingFor(live, arts, ts[j], mode) == plan[b].articles;
    KeyOfTarget(ts, j);
    assert AckedIn(replies[b], ip);
  }

  lemma TargetHasDelivery(live: map<Key, Row>, arts: seq<Article>, ts: seq<Target>, mode: Mode, plan: seq<Parcel>,
          replies: seq<seq<Reply>>, k: Key, j: nat)
    requires GoodTargets(ts) && Answered(plan, replies) && Sourced(live, arts, ts, mode, plan)
    requires j < |ts| && ts[j].historyKey == k.device && Gave(live, arts, ts, mode, replies, k.url, j)
    ensures DeliveredTo(plan, replies, KeyMap(ts), k, |replies|)
  {
    var b :| 0 <= b < |replies| && AckedIn(replies[b], ts[j].ip);
    var m :| 0 <= m < |replies[b]| && replies[b][m].ok && replies[b][m].ip == ts[j].ip;
    assert Answers(replies[b], plan[b].ips);
    assert FromTarget(live, arts, ts, mode, plan[b], ts[j].ip);
    KeyOfTarget(ts, j);
    assert AckedAs(replies[b], KeyMap(ts), k.device);
    assert DeliveredBy(plan, replies, KeyMap(ts), k, b);
  }

  /** In terms of targets: a pair was delivered exactly when some acknowledging target with that key missed the url. */
  lemma DeliveredByTargets(live: map<Key, Row>, arts: seq<Article>, ts: seq<Target>, mode: Mode, plan: seq<Parcel>,
          replies: seq<seq<Reply>>, k: Key)
    requires GoodTargets(ts) && Answered(plan, replies) && Sourced(live, arts, ts, mode, plan)
    ensures DeliveredTo(plan, replies, KeyMap(ts), k, |replies|) <==>
            exists j :: 0 <= j < |ts| && ts[j].historyKey == k.device && Gave(live, arts, ts, mode, replies, k.url, j)
  {
    if b :| 0 <= b < |replies| && DeliveredBy(plan, replies, KeyMap(ts), k, b) {
      var j := DeliveredHasTarget(live, arts, ts, mode, plan, replies, k, b);
    }
    if j :| 0 <= j < |ts| && ts[j].historyKey == k.device && Gave(live, arts, ts, mode, replies, k.url, j) {
      TargetHasDelivery(live, arts, ts, mode, plan, replies, k, j);
    }
  }

  /** The history after a run in which the first `|replies|` parcels were answered. */
  function AfterRun(t: Tables, arts: seq<Article>, ts: seq<Target>, mode: Mode, site: string, replies: seq<seq<Reply>>,
          clock: seq<nat>): Tables
    requires |replies| <= |PlanOf(t.live, arts, ts, mode)| && |replies| <= |clock|
  {
    RunTo(t, PlanOf(t.live, arts, ts, mode), replies, site, KeyMap(ts), clock, |replies|)
  }

  lemma AfterRunLive(t: Tables, arts: seq<Article>, ts: seq<Target>, mode: Mode, site: string,
          replies: seq<seq<Reply>>, clock: seq<nat>, k: Key)
    requires Consistent(t) && GoodTargets(ts) && Answered(PlanOf(t.live, arts, ts, mode), replies) &&
      |replies| <= |clock|
    ensures k in AfterRun(t, arts, ts, mode, site, replies, clock).live <==>
      k in t.live || (Named(k) && exists j ::
        0 <= j < |ts| && ts[j].historyKey == k.device && Gave(t.live, arts, ts, mode, replies, k.url, j))
  {
    RunRecordsAcknowledged(t, PlanOf(t.live, arts, ts, mode), replies, site, KeyMap(ts), clock, |replies|, k);
    PlanSourced(t.live, arts, ts, mode);
    DeliveredByTargets(t.live, arts, ts, mode, PlanOf(t.live, arts, ts, mode), replies, k);
  }

  // ---------------------------------------------------------------- planning again

  /** The url reached target `i` in the run, directly or through a target that shares one of its keys. */
  ghost predicate Reached(live: map<Key, Row>, arts: seq<Article>, ts: seq<Target>, mode: Mode,
          replies: seq<seq<Reply>>, url: string, i: nat)
    requires i < |ts|
  {
    exists j :: 0 <= j < |ts| && (mode == GlobalUrl || ts[j].historyKey in TargetKeys(ts[i])) &&
        Gave(live, arts, ts, mode, replies, url, j)
  }

  /** What a target still has to get after a run: what it missed, less what reached it. */
  lemma StillOwed(t: Tables, arts: seq<Article>, ts: seq<Target>, mode: Mode, site: string, replies: seq<seq<Reply>>,
          clock: seq<nat>, i: nat, url: string)
    requires Consistent(t) && GoodTargets(ts) && Answered(PlanOf(t.live, arts, ts, mode), replies) &&
      |replies| <= |clock|
    requires i < |ts| && url != ""
    ensures var after := AfterRun(t, arts, ts, mode, site, replies, clock);
      Delivered(after.live, url, TargetKeys(ts[i]), mode) <==>
      Delivered(t.live, url, TargetKeys(ts[i]), mode) || Reached(t.live, arts, ts, mode, replies, url, i)
  {
    var after := AfterRun(t, arts, ts, mode, site, replies, clock);
    var keys := TargetKeys(ts[i]);
    forall k ensures k in after.live <==>
      k in t.live || (Named(k) && exists j ::
        0 <= j < |ts| && ts[j].historyKey == k.device && Gave(t.live, arts, ts, mode, replies, k.url, j))
    {
      AfterRunLive(t, arts, ts, mode, site, replies, clock, k);
    }
    if j :|
      0 <= j < |ts| && (mode == GlobalUrl || ts[j].historyKey in keys) && Gave(t.live, arts, ts, mode, replies, url, j)
    {
      var k := Key(url, ts[j].historyKey);
      assert k in after.live && k.url == url;
      if mode == PerDevice { var m :| 0 <= m < |keys| && keys[m] == ts[j].historyKey; }
    }
    if Delivered(after.live, url, keys, mode) && !Delivered(t.live, url, keys, mode) {
      var k: Key :| k in after.live && k !in t.live && k.url == url && (mode == GlobalUrl || k.device in keys);
    }
  }

  lemma {:induction false} MissingCongruent(a: map<Key, Row>, b: map<Key, Row>, keys: seq<string>, arts: seq<Article>,
          mode: Mode)
    requires forall x :: x in arts && x.url != "" ==>
        (Delivered(a, x.url, keys, mode) <==> Delivered(b, x.url, keys, mode))
    ensures Missing(a, keys, arts, mode) == Missing(b, keys, arts, mode)
  {
    if arts != [] {
      var init, last := arts[..|arts| - 1], arts[|arts| - 1];
      assert arts == init + [last];
      assert last in arts;
      MissingCongruent(a, b, keys, init, mode);
    }
  }

  /** A target that acknowledged is owed nothing more. */
  lemma AckedOwedNothing(t: Tables, arts: seq<Article>, ts: seq<Target>, mode: Mode, site: string,
          replies: seq<seq<Reply>>, clock: seq<nat>, i: nat)
    requires Consistent(t) && GoodTargets(ts) && Answered(PlanOf(t.live, arts, ts, mode), replies) &&
      |replies| <= |clock|
    requires i < |ts| && Acked(replies, ts[i].ip)
    ensures MissingFor(AfterRun(t, arts, ts, mode, site, replies, clock).live, arts, ts[i], mode) == []
  {
    var after, keys := AfterRun(t, arts, ts, mode, site, replies, clock), TargetKeys(ts[i]);
    forall a | a in arts && a.url != "" ensures Delivered(after.live, a.url, keys, mode) {
      StillOwed(t, arts, ts, mode, site, replies, clock, i, a.url);
      if !Delivered(t.live, a.url, keys, mode) {
        MissingMember(t.live, keys, arts, mode, a);
        assert HasUrl(MissingFor(t.live, arts, ts[i], mode), a.url);
        assert Gave(t.live, arts, ts, mode, replies, a.url, i);
      }
    }
    MissingNonEmpty(after.live, keys, arts, mode);
  }

  /** No target's deliveries are recorded under another target's keys. */
  ghost predicate DisjointKeys(ts: seq<Target>) {
    forall i, j :: 0 <= i < |ts| && 0 <= j < |ts| && ts[j].historyKey in TargetKeys(ts[i]) ==> i == j
  }

  /** A target that did not acknowledge is owed what it was owed before. */
  lemma FailedOwedTheSame(t: Tables, arts: seq<Article>, ts: seq<Target>, site: string, replies: seq<seq<Reply>>,
          clock: seq<nat>, i: nat)
    requires Consistent(t) && GoodTargets(ts) && Answered(PlanOf(t.live, arts, ts, PerDevice), replies) &&
      |replies| <= |clock|
    requires DisjointKeys(ts) && i < |ts| && !Acked(replies, ts[i].ip)
    ensures MissingFor(AfterRun(t, arts, ts, PerDevice, site, replies, clock).live, arts, ts[i], PerDevice) ==
        MissingFor(t.live, arts, ts[i], PerDevice)
  {
    var after, keys := AfterRun(t, arts, ts, PerDevice, site, replies, clock), TargetKeys(ts[i]);
    forall a | a in arts && a.url != ""
      ensures Delivered(after.live, a.url, keys, PerDevice) <==> Delivered(t.live, a.url, keys, PerDevice)
    {
      StillOwed(t, arts, ts, PerDevice, site, replies, clock, i, a.url);
    }
    MissingCongruent(after.live, t.live, keys, arts, PerDevice);
  }

  /** The targets that have not acknowledged anything. */
  ghost function Unacked(ts: seq<Target>, replies: seq<seq<Reply>>): seq<Target> {
    if ts == [] then []
    else Unacked(ts[..|ts| - 1], replies) + (if Acked(replies, ts[|ts| - 1].ip) then [] else [ts[|ts| - 1]])
  }

  lemma {:induction false} PlanOfUnacked(a: map<Key, Row>, b: map<Key, Row>, arts: seq<Article>, ts: seq<Target>,
          mode: Mode, replies: seq<seq<Reply>>)
    requires forall i :: 0 <= i < |ts| ==>
      MissingFor(b, arts, ts[i], mode) == if Acked(replies, ts[i].ip) then [] else MissingFor(a, arts, ts[i], mode)
    ensures PlanOf(b, arts, ts, mode) == PlanOf(a, arts, Unacked(ts, replies), mode)
  {
    if ts != [] {
      var init, last := ts[..|ts| - 1], ts[|ts| - 1];
      PlanOfUnacked(a, b, arts, init, mode, replies);
      var kept := Unacked(init, replies);
      if !Acked(replies, last.ip) {
        assert Unacked(ts, replies) == kept + [last];
        assert (kept + [last])[..|kept|] == kept;
      } else {
        assert Unacked(ts, replies) == kept;
      }
    }
  }

  /** Replanning in per-device mode with disjoint keys: after any run, cancelled or not, planning the same
      articles again gives the plan the failed targets alone would have had before the run. */
  lemma ReplanIsFailedTargets(t: Tables, arts: seq<Article>, ts: seq<Target>, site: string, replies: seq<seq<Reply>>,
          clock: seq<nat>)
    requires Consistent(t) && GoodTargets(ts) && Answered(PlanOf(t.live, arts, ts, PerDevice), replies) &&
      |replies| <= |clock|
    requires DisjointKeys(ts)
    ensures PlanOf(AfterRun(t, arts, ts, PerDevice, site, replies, clock).live, arts, ts, PerDevice) ==
            PlanOf(t.live, arts, Unacked(ts, replies), PerDevice)
  {
    var after := AfterRun(t, arts, ts, PerDevice, site, replies, clock);
    forall i | 0 <= i < |ts|
      ensures MissingFor(after.live, arts, ts[i], PerDevice) ==
              if Acked(replies, ts[i].ip) then [] else MissingFor(t.live, arts, ts[i], PerDevice)
    {
      if Acked(replies, ts[i].ip) {
        AckedOwedNothing(t, arts, ts, PerDevice, site, replies, clock, i);
      } else {
        FailedOwedTheSame(t, arts, ts, site, replies, clock, i);
      }
    }
    PlanOfUnacked(t.live, after.live, arts, ts, PerDevice, replies);
  }

  lemma {:induction false} NothingMissingNoPlan(live: map<Key, Row>, arts: seq<Article>, ts: seq<Target>, mode: Mode)
    requires forall i :: 0 <= i < |ts| ==> MissingFor(live, arts, ts[i], mode) == []
    ensures PlanOf(live, arts, ts, mode) == []
  {
    if ts != [] { NothingMissingNoPlan(live, arts, ts[..|ts| - 1], mode); }
  }

  /** When every target that missed something acknowledged, planning again gives nothing, in either mode. */
  lemma NothingLeftWhenAllSucceeded(t: Tables, arts: seq<Article>, ts: seq<Target>, mode: Mode, site: string,
          replies: seq<seq<Reply>>, clock: seq<nat>)
    requires Consistent(t) && GoodTargets(ts) && Answered(PlanOf(t.live, arts, ts, mode), replies) &&
      |replies| <= |clock|
    requires forall i :: 0 <= i < |ts| && Pending(t.live, arts, ts[i], mode) ==> Acked(replies, ts[i].ip)
    ensures PlanOf(AfterRun(t, arts, ts, mode, site, replies, clock).live, arts, ts, mode) == []
  {
    var after := AfterRun(t, arts, ts, mode, site, replies, clock);
    forall i | 0 <= i < |ts| ensures MissingFor(after.live, arts, ts[i], mode) == [] {
      if Acked(replies, ts[i].ip) {
        AckedOwedNothing(t, arts, ts, mode, site, replies, clock, i);
      } else {
        var keys := TargetKeys(ts[i]);
        MissingNonEmpty(t.live, keys, arts, mode);
        forall a | a in arts && a.url != "" ensures Delivered(after.live, a.url, keys, mode) {
          StillOwed(t, arts, ts, mode, site, replies, clock, i, a.url);
        }
        MissingNonEmpty(after.live, keys, arts, mode);
      }
    }
    NothingMissingNoPlan(after.live, arts, ts, mode);
  }

  /** In per-device mode with disjoint keys it gives nothing exactly then. */
  lemma NothingLeftIff(t: Tables, arts: seq<Article>, ts: seq<Target>, site: string, replies: seq<seq<Reply>>,
          clock: seq<nat>)
    requires Consistent(t) && GoodTargets(ts) && Answered(PlanOf(t.live, arts, ts, PerDevice), replies) &&
      |replies| <= |clock|
    requires DisjointKeys(ts)
    ensures PlanOf(AfterRun(t, arts, ts, PerDevice, site, replies, clock).live, arts, ts, PerDevice) == [] <==>
            forall i :: 0 <= i < |ts| && Pending(t.live, arts, ts[i], PerDevice) ==> Acked(replies, ts[i].ip)
  {
    var after := AfterRun(t, arts, ts, PerDevice, site, replies, clock);
    if forall i :: 0 <= i < |ts| && Pending(t.live, arts, ts[i], PerDevice) ==> Acked(replies, ts[i].ip) {
      NothingLeftWhenAllSucceeded(t, arts, ts, PerDevice, site, replies, clock);
    } else {
      var i :| 0 <= i < |ts| && Pending(t.live, arts, ts[i], PerDevice) && !Acked(replies, ts[i].ip);
      FailedOwedTheSame(t, arts, ts, site, replies, clock, i);
      var k := PlanComplete(after.live, arts, ts, PerDevice, i);
    }
  }

  /** In global mode one acknowledgement settles the articles for every target: the ones that failed are not retried. */
  lemma GlobalModeOneAckSettles(t: Tables, arts: seq<Article>, ts: seq<Target>, site: string, replies: seq<seq<Reply>>,
          clock: seq<nat>, j: nat)
    requires Consistent(t) && GoodTargets(ts) && Answered(PlanOf(t.live, arts, ts, GlobalUrl), replies) &&
      |replies| <= |clock|
    requires j < |ts| && Acked(replies, ts[j].ip)
    ensures PlanOf(AfterRun(t, arts, ts, GlobalUrl, site, replies, clock).live, arts, ts, GlobalUrl) == []
  {
    var after := AfterRun(t, arts, ts, GlobalUrl, site, replies, clock);
    AckedOwedNothing(t, arts, ts, GlobalUrl, site, replies, clock, j);
    forall i | 0 <= i < |ts| ensures MissingFor(after.live, arts, ts[i], GlobalUrl) == [] {
      MissingNonEmpty(after.live, TargetKeys(ts[i]), arts, GlobalUrl);
      MissingNonEmpty(after.live, TargetKeys(ts[j]), arts, GlobalUrl);
    }
    NothingMissingNoPlan(after.live, arts, ts, GlobalUrl);
  }

  // ---------------------------------------------------------------- success

  lemma {:induction false} ResultsShape(replies: seq<Reply>, ip: string)
    requires forall j, k :: 0 <= j < k < |replies| ==> replies[j].ip != replies[k].ip
    ensures ip in Results(replies) <==> exists k :: 0 <= k < |replies| && replies[k].ip == ip
    ensures ip in Results(replies) ==> (Results(replies)[ip] <==> AckedIn(replies, ip))
  {
    if replies != [] {
      var init, last := replies[..|replies| - 1], replies[|replies| - 1];
      ResultsShape(init, ip);
      if k :| 0 <= k < |init| && init[k].ip == ip { assert replies[k].ip == ip; }
      if last.ip == ip { assert replies[|replies| - 1].ip == ip; }
      if AckedIn(init, ip) { var k :| 0 <= k < |init| && init[k].ok && init[k].ip == ip; assert replies[k] == init[k]; }
      if AckedIn(replies, ip) && last.ip != ip {
        var k :| 0 <= k < |replies| && replies[k].ok && replies[k].ip == ip;
        assert init[k] == replies[k];
      }
    }
  }

  lemma AnswerIps(replies: seq<Reply>, ips: seq<string>, ip: string)
    requires Answers(replies, ips)
    ensures ip in Results(replies) <==> ip in ips
    ensures ip in Results(replies) ==> (Results(replies)[ip] <==> AckedIn(replies, ip))
    ensures AckedIn(replies, ip) ==> ip in ips
  {
    ResultsShape(replies, ip);
  }

  /** An address belongs to one parcel only. */
  lemma OneParcelPerIp(live: map<Key, Row>, arts: seq<Article>, ts: seq<Target>, mode: Mode, j: nat, k: nat, ip: string)
    requires DistinctIps(ts) && j < |PlanOf(live, arts, ts, mode)| && k < |PlanOf(live, arts, ts, mode)|
    requires ip in PlanOf(live, arts, ts, mode)[j].ips && ip in PlanOf(live, arts, ts, mode)[k].ips
    ensures j == k
  {
    var plan := PlanOf(live, arts, ts, mode);
    PlanSourced(live, arts, ts, mode);
    assert FromTarget(live, arts, ts, mode, plan[j], ip) && FromTarget(live, arts, ts, mode, plan[k], ip);
    var i :| 0 <= i < |ts| && ts[i].ip == ip && MissingFor(live, arts, ts[i], mode) == plan[j].articles;
    PlanExact(live, arts, ts, mode, i, j);
  }

  ghost predicate InParcels(plan: seq<Parcel>, n: nat, ip: string)
    requires n <= |plan|
  {
    exists b :: 0 <= b < n && ip in plan[b].ips
  }

  ghost predicate ApartParcels(plan: seq<Parcel>) {
    forall j, k, ip :: 0 <= j < |plan| && 0 <= k < |plan| && ip in plan[j].ips && ip in plan[k].ips ==> j == k
  }

  ghost predicate AckedBefore(replies: seq<seq<Reply>>, n: nat, ip: string)
    requires n <= |replies|
  {
    exists b :: 0 <= b < n && AckedIn(replies[b], ip)
  }

  lemma {:induction false} ResultsToShape(plan: seq<Parcel>, replies: seq<seq<Reply>>, n: nat, ip: string)
    requires ApartParcels(plan) && Answered(plan, replies) && n <= |replies|
    ensures ip in ResultsTo(replies, n) <==> InParcels(plan, n, ip)
    ensures ip in ResultsTo(replies, n) ==> (ResultsTo(replies, n)[ip] <==> AckedBefore(replies, n, ip))
  {
    if n > 0 {
      ResultsToShape(plan, replies, n - 1, ip);
      AnswerIps(replies[n - 1], plan[n - 1].ips, ip);
      if ip in plan[n - 1].ips {
        forall b | 0 <= b < n - 1 ensures !AckedIn(replies[b], ip) {
          AnswerIps(replies[b], plan[b].ips, ip);
        }
      }
    }
  }

  lemma {:induction false} PendingIpsMember(plan: seq<Parcel>, ip: string)
    ensures ip in PendingIps(plan) <==> InParcels(plan, |plan|, ip)
  {
    if plan != [] {
      var init := plan[..|plan| - 1];
      PendingIpsMember(init, ip);
      if b :| 0 <= b < |init| && ip in init[b].ips { assert ip in plan[b].ips; }
      if b :| 0 <= b < |plan| && ip in plan[b].ips { if b < |init| { assert ip in init[b].ips; } }
    }
  }

  lemma AllOkOf(results: map<string, bool>, pending: seq<string>, acked: set<string>)
    requires forall ip :: ip in results <==> ip in pending
    requires forall ip :: ip in results ==> (results[ip] <==> ip in acked)
    ensures UploadAllOk(results, pending) <==> pending != [] && forall ip :: ip in pending ==> ip in acked
  {
    assert results.Keys == set ip | ip in pending;
    if pending != [] { assert pending[0] in results.Keys; }
  }

  /** `upload_all_ok` on the merged answers of a complete run. */
  lemma AllOkMeansAcked(plan: seq<Parcel>, replies: seq<seq<Reply>>)
    requires ApartParcels(plan) && Answered(plan, replies) && |replies| == |plan|
    ensures UploadAllOk(ResultsTo(replies, |plan|), PendingIps(plan)) <==>
            PendingIps(plan) != [] && forall ip :: ip in PendingIps(plan) ==> Acked(replies, ip)
  {
    var results, pending := ResultsTo(replies, |plan|), PendingIps(plan);
    var acked := set ip | ip in pending && Acked(replies, ip);
    forall ip
      ensures ip in results <==> ip in pending
      ensures ip in results ==> (results[ip] <==> ip in acked)
    {
      ResultsToShape(plan, replies, |plan|, ip);
      PendingIpsMember(plan, ip);
      assert Acked(replies, ip) <==> AckedBefore(replies, |plan|, ip);
    }
    AllOkOf(results, pending, acked);
  }

  /** A site counts as a success exactly when every pending target's parcel was acknowledged from it. */
  lemma SuccessIffAllAcknowledged(live: map<Key, Row>, arts: seq<Article>, ts: seq<Target>, mode: Mode,
          replies: seq<seq<Reply>>)
    requires DistinctIps(ts) && Answered(PlanOf(live, arts, ts, mode), replies) &&
      |replies| == |PlanOf(live, arts, ts, mode)|
    ensures var plan := PlanOf(live, arts, ts, mode);
      UploadAllOk(ResultsTo(replies, |plan|), PendingIps(plan)) <==>
      plan != [] && forall i :: 0 <= i < |ts| && Pending(live, arts, ts[i], mode) ==> Acked(replies, ts[i].ip)
  {
    var plan := PlanOf(live, arts, ts, mode);
    PlanHasIps(live, arts, ts, mode);
    forall j, k, ip | 0 <= j < |plan| && 0 <= k < |plan| && ip in plan[j].ips && ip in plan[k].ips ensures j == k {
      OneParcelPerIp(live, arts, ts, mode, j, k, ip);
    }
    AllOkMeansAcked(plan, replies);
    forall ip ensures ip in PendingIps(plan) <==>
        exists i :: 0 <= i < |ts| && ts[i].ip == ip && Pending(live, arts, ts[i], mode) {
      PlannedTargets(live, arts, ts, mode, ip);
      PendingIpsMember(plan, ip);
    }
    if plan != [] {
      assert InParcels(plan, |plan|, plan[0].ips[0]);
      PendingIpsMember(plan, plan[0].ips[0]);
    }
  }

  lemma PlannedTargets(live: map<Key, Row>, arts: seq<Article>, ts: seq<Target>, mode: Mode, ip: string)
    requires DistinctIps(ts)
    ensures InParcels(PlanOf(live, arts, ts, mode), |PlanOf(live, arts, ts, mode)|, ip) <==>
            exists i :: 0 <= i < |ts| && ts[i].ip == ip && Pending(live, arts, ts[i], mode)
  {
    var plan := PlanOf(live, arts, ts, mode);
    PlanSourced(live, arts, ts, mode);
    if b :| 0 <= b < |plan| && ip in plan[b].ips {
      assert FromTarget(live, arts, ts, mode, plan[b], ip);
    }
    if i :| 0 <= i < |ts| && ts[i].ip == ip && Pending(live, arts, ts[i], mode) {
      var k := PlanComplete(live, arts, ts, mode, i);
    }
  }
}
