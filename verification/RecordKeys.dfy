/**
 Which reader a target is, and under which key its deliveries are recorded: the stable id, so that a new address
 makes nothing pending again.
 */
module RecordKeys {
  import opened Lww
  import opened History
  import opened DeviceRegistry
  import opened RegistryFixpoint
  import opened RegistryExport
  import opened Delivery
  import opened DeliveryProofs
  import opened DeliveryRuns
  import opened IdentitySafety

  // ---------------------------------------------------------------- the readers of a configuration

  /** Deliveries to `t` are recorded under the reader's id, or under its address when it has none. */
  predicate RecordedById(t: Target, id: string, ip: string) {
    t.id == id && t.ip == ip && t.historyKey == if id != "" then id else ip
  }

  /** The target is looked up under the reader's id, its aliases and its address, and the primary reader under the
      address every reader once had: these, in that order, without blanks and repetitions. */
  ghost predicate LookedUpBy(t: Target, id: string, aliases: seq<string>, ip: string, primary: bool) {
    var all := [id] + aliases + (if primary then [ip, LEGACY_HOST] else [ip]);
    FirstOccurrences(all, TargetKeys(t), |all|) && forall k :: k in TargetKeys(t) <==> k in all && k != ""
  }

  /** Target `t` is reader `o` of the configuration: 0 is the primary one, `j + 1` extra reader `j`, which must be the
      first at its address. */
  ghost predicate Serves(cfg: Config, t: Target, o: nat) {
    if o == 0 then
      && cfg.host != "" && t.name == DEFAULT_NAME && RecordedById(t, cfg.primaryId, cfg.host)
      && LookedUpBy(t, cfg.primaryId, cfg.primaryAliases, cfg.host, true)
    else
      && o <= |cfg.devices| && var d := cfg.devices[o - 1];
      && d.ip != "" && d.ip != cfg.host && (forall j :: 0 <= j < o - 1 ==> cfg.devices[j].ip != d.ip)
      && t.name == (if d.name != "" then d.name else d.ip) && RecordedById(t, d.id, d.ip)
      && LookedUpBy(t, d.id, d.aliases, d.ip, false)
  }

  lemma KeysInOrder(t: Target, id: string, aliases: seq<string>, ip: string, primary: bool)
    requires ip != "" && t.aliasKeys == TextList([id] + aliases + if primary then [ip, LEGACY_HOST] else [ip])
    ensures LookedUpBy(t, id, aliases, ip, primary)
  {
    var all := [id] + aliases + (if primary then [ip, LEGACY_HOST] else [ip]);
    assert all[|[id] + aliases|] == ip;
    TextListInOrder(all);
    var r := TextList(all);
    WithoutAbsent(r, "");
    assert |r| <= |all|;
  }

  lemma PrimaryServes(cfg: Config)
    requires cfg.host != ""
    ensures Serves(cfg, PrimaryTarget(cfg), 0)
  {
    var all := [cfg.primaryId] + cfg.primaryAliases + [cfg.host, LEGACY_HOST];
    KeysInOrder(PrimaryTarget(cfg), cfg.primaryId, cfg.primaryAliases, cfg.host, true);
  }

  lemma DeviceServes(cfg: Config, j: nat)
    requires j < |cfg.devices| && cfg.devices[j].ip != "" && cfg.devices[j].ip != cfg.host
    requires forall k :: 0 <= k < j ==> cfg.devices[k].ip != cfg.devices[j].ip
    ensures Serves(cfg, DeviceTarget(cfg.devices[j]), j + 1)
  {
    var d := cfg.devices[j];
    KeysInOrder(DeviceTarget(d), d.id, d.aliases, d.ip, false);
  }

  /** The addresses of the primary reader and the first `n` extra ones. */
  ghost predicate HasAddress(cfg: Config, n: nat, ip: string)
    requires n <= |cfg.devices|
  {
    ip != "" && (ip == cfg.host || exists j :: 0 <= j < n && cfg.devices[j].ip == ip)
  }

  /** The list is right for the first `n` extra readers: every target serves one of them, in their order, and every
      address of theirs has a target. */
  ghost predicate RightTo(cfg: Config, n: nat, ts: seq<Target>, os: seq<nat>)
    requires n <= |cfg.devices|
  {
    && |ts| == |os| && (forall i :: 0 <= i < |ts| ==> os[i] <= n && Serves(cfg, ts[i], os[i]))
    && (forall i, j :: 0 <= i < j < |os| ==> os[i] < os[j])
    && (forall ip :: ip in Ips(ts) <==> HasAddress(cfg, n, ip))
  }

  lemma IpsAppend(ts: seq<Target>, t: Target, ip: string)
    ensures ip in Ips(ts + [t]) <==> ip in Ips(ts) || ip == t.ip
  {
    if ip in Ips(ts) { var i :| 0 <= i < |ts| && ts[i].ip == ip; assert (ts + [t])[i].ip == ip; }
    assert (ts + [t])[|ts|] == t;
  }

  lemma RightNone(cfg: Config)
    requires cfg.host == ""
    ensures RightTo(cfg, 0, [], [])
  {
  }

  lemma RightPrimary(cfg: Config, t: Target)
    requires Serves(cfg, t, 0)
    ensures RightTo(cfg, 0, [t], [0])
  {
    forall ip ensures ip in Ips([t]) <==> HasAddress(cfg, 0, ip) {
      IpsAppend([], t, ip);
      assert [] + [t] == [t];
    }
  }

  lemma RightSkip(cfg: Config, n: nat, ts: seq<Target>, os: seq<nat>)
    requires 0 < n <= |cfg.devices| && RightTo(cfg, n - 1, ts, os)
    requires cfg.devices[n - 1].ip == "" || cfg.devices[n - 1].ip in Ips(ts)
    ensures RightTo(cfg, n, ts, os)
  {
  }

  lemma RightAppend(cfg: Config, n: nat, ts: seq<Target>, os: seq<nat>, t: Target)
    requires 0 < n <= |cfg.devices| && RightTo(cfg, n - 1, ts, os) && Serves(cfg, t, n)
    ensures RightTo(cfg, n, ts + [t], os + [n])
  {
    forall ip ensures ip in Ips(ts + [t]) <==> HasAddress(cfg, n, ip) { IpsAppend(ts, t, ip); }
    forall i | 0 <= i < |ts| + 1 ensures (os + [n])[i] <= n && Serves(cfg, (ts + [t])[i], (os + [n])[i]) {
      if i < |ts| { assert Serves(cfg, ts[i], os[i]); }
    }
  }

  lemma {:induction false} TargetsToRight(cfg: Config, n: nat) returns (os: seq<nat>)
    requires n <= |cfg.devices|
    ensures RightTo(cfg, n, TargetsTo(cfg, n), os)
  {
    if n == 0 {
      if cfg.host == "" {
        os := [];
        RightNone(cfg);
      } else {
        os := [0];
        PrimaryServes(cfg);
        RightPrimary(cfg, PrimaryTarget(cfg));
      }
    } else {
      os := TargetsToRight(cfg, n - 1);
      var ts, ip := TargetsTo(cfg, n - 1), cfg.devices[n - 1].ip;
      if ip == "" || ip in Ips(ts) {
        RightSkip(cfg, n, ts, os);
      } else {
        assert !HasAddress(cfg, n - 1, ip);
        DeviceServes(cfg, n - 1);
        RightAppend(cfg, n, ts, os, DeviceTarget(cfg.devices[n - 1]));
        os := os + [n];
      }
    }
  }

  /** The targets are the readers of the configuration that have an address, one for each address, in order, each
      recorded and looked up as its reader. */
  ghost predicate Right(cfg: Config, ts: seq<Target>) {
    exists os :: RightTo(cfg, |cfg.devices|, ts, os)
  }

  lemma TargetsRight(cfg: Config)
    ensures Right(cfg, TargetsOf(cfg))
  {
    var os := TargetsToRight(cfg, |cfg.devices|);
  }

  // ---------------------------------------------------------------- a new address

  /** The url is not among what the target is still to get. */
  ghost predicate OwedNot(live: map<Key, Row>, arts: seq<Article>, u: Target, mode: Mode, url: string) {
    !HasUrl(MissingFor(live, arts, u, mode), url)
  }

  lemma {:induction false} MissingIsUndelivered(live: map<Key, Row>, keys: seq<string>, arts: seq<Article>, mode: Mode,
          url: string)
    requires HasUrl(Missing(live, keys, arts, mode), url)
    ensures url != "" && !Delivered(live, url, keys, mode)
  {
    var m := Missing(live, keys, arts, mode);
    var i :| 0 <= i < |m| && m[i].url == url;
    if arts != [] {
      var init := Missing(live, keys, arts[..|arts| - 1], mode);
      if i < |init| {
        assert init[i].url == url;
        MissingIsUndelivered(live, keys, arts[..|arts| - 1], mode, url);
      }
    }
  }

  /** An article a run delivered to a reader with an id is not owed to any target looked up under that id, whatever
      configuration the target comes from and whatever is planned next. */
  lemma IdCarriesDelivery(t: Tables, arts: seq<Article>, cfg: Config, mode: Mode, site: string,
          replies: seq<seq<Reply>>, clock: seq<nat>, i: nat, url: string, u: Target, next: seq<Article>, again: Mode)
    requires var ts := TargetsOf(cfg);
      && Consistent(t) && Answered(PlanOf(t.live, arts, ts, mode), replies) && |replies| <= |clock|
      && i < |ts| && Gave(t.live, arts, ts, mode, replies, url, i)
      && ts[i].id != "" && ts[i].id in TargetKeys(u)
    ensures OwedNot(AfterRun(t, arts, TargetsOf(cfg), mode, site, replies, clock).live, next, u, again, url)
  {
    var ts := TargetsOf(cfg);
    TargetsGood(cfg);
    TargetsRight(cfg);
    var os :| RightTo(cfg, |cfg.devices|, ts, os);
    assert Serves(cfg, ts[i], os[i]);
    MissingIsUndelivered(t.live, TargetKeys(ts[i]), arts, mode, url);
    var live, k := AfterRun(t, arts, ts, mode, site, replies, clock).live, Key(url, ts[i].id);
    AfterRunLive(t, arts, ts, mode, site, replies, clock, k);
    assert k in live && k.url == url;
    if HasUrl(MissingFor(live, next, u, again), url) {
      MissingIsUndelivered(live, TargetKeys(u), next, again, url);
    }
  }

  function Moved(cfg: Config, o: nat, ip: string): Config
    requires o <= |cfg.devices|
  {
    if o == 0 then cfg.(host := ip) else cfg.(devices := cfg.devices[o - 1 := cfg.devices[o - 1].(ip := ip)])
  }

  /** A reader with an id moves to another address and nothing else changes: what a run had delivered to it is not
      owed to it there. */
  lemma NewAddressOwesNothing(t: Tables, arts: seq<Article>, cfg: Config, mode: Mode, site: string,
          replies: seq<seq<Reply>>, clock: seq<nat>, i: nat, o: nat, ip: string, url: string, m: nat,
          next: seq<Article>, again: Mode)
    requires var ts := TargetsOf(cfg);
      && Consistent(t) && Answered(PlanOf(t.live, arts, ts, mode), replies) && |replies| <= |clock|
      && i < |ts| && Serves(cfg, ts[i], o) && ts[i].id != "" && Gave(t.live, arts, ts, mode, replies, url, i)
    requires o <= |cfg.devices|
    requires m < |TargetsOf(Moved(cfg, o, ip))| && Serves(Moved(cfg, o, ip), TargetsOf(Moved(cfg, o, ip))[m], o)
    ensures OwedNot(AfterRun(t, arts, TargetsOf(cfg), mode, site, replies, clock).live, next,
                    TargetsOf(Moved(cfg, o, ip))[m], again, url)
  {
    var u := TargetsOf(Moved(cfg, o, ip))[m];
    assert u.id == TargetsOf(cfg)[i].id && u.id in TargetKeys(u);
    IdCarriesDelivery(t, arts, cfg, mode, site, replies, clock, i, url, u, next, again);
  }
}
