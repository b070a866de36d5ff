/**
 The daily digest: the new articles of all sites go out as one list.
 */
module Digest {
  import opened History
  import opened DeviceRegistry
  import opened Delivery
  import opened DeliveryProofs

  /** The new articles of one source; an article's `site` is the name of the source it came from, if known. */
  datatype Source = Source(id: string, articles: seq<Article>)

  function Tagged(arts: seq<Article>, id: string): seq<Article> {
    seq(|arts|, i requires 0 <= i < |arts| => arts[i].(site := OrElse(arts[i].site, id)))
  }

  /** All articles, source by source, each with the site name it is recorded under. */
  function Flat(sources: seq<Source>): seq<Article> {
    if sources == [] then []
    else
      var s := sources[|sources| - 1];
      Flat(sources[..|sources| - 1]) + Tagged(s.articles, s.id)
  }

  method Flatten(sources: seq<Source>) returns (flat: seq<Article>)
    ensures flat == Flat(sources)
  {
    flat := [];
    for i := 0 to |sources|
      invariant flat == Flat(sources[..i])
    {
      assert sources[..i + 1][..i] == sources[..i];
      ghost var before := flat;
      var arts := sources[i].articles;
      for k := 0 to |arts|
        invariant flat == before + Tagged(arts, sources[i].id)[..k]
      {
        flat := flat + [arts[k].(site := OrElse(arts[k].site, sources[i].id))];
      }
    }
    assert sources[..|sources|] == sources;
  }

  function Triples(arts: seq<Article>): seq<(string, string, string)> {
    seq(|arts|, i requires 0 <= i < |arts| => (arts[i].url, arts[i].site, arts[i].title))
  }

  /** `collect_mark_entries_from_triples` records what `collect_mark_entries` would for articles that name their
      site. */
  method CollectMarkEntriesFromTriples(db: SyncHistoryDb, replies: seq<Reply>, ghost arts: seq<Article>,
      triples: seq<(string, string, string)>, keys: map<string, string>) returns (entries: seq<MarkEntry>)
    requires triples == Triples(arts)
    ensures entries == Collected(db.synced, replies, arts, "", keys)
  {
    entries := [];
    for i := 0 to |replies|
      invariant entries == Collected(db.synced, replies[..i], arts, "", keys)
    {
      assert replies[..i + 1][..i] == replies[..i];
      if !replies[i].ok { continue; }
      var key := KeyOf(keys, replies[i].ip);
      ghost var before := entries;
      for k := 0 to |triples|
        invariant entries == before + EntriesFor(db.synced, key, arts[..k], "")
      {
        assert arts[..k + 1][..k] == arts[..k];
        var (url, site, title) := triples[k];
        if url == "" || Key(url, key) in db.synced { continue; }
        entries := entries + [MarkEntry(Key(url, key), site, title)];
      }
      assert arts[..|arts|] == arts;
    }
    assert replies[..|replies|] == replies;
  }

  lemma {:induction false} MissingConcat(live: map<Key, Row>, keys: seq<string>, xs: seq<Article>, ys: seq<Article>,
          mode: Mode)
    ensures Missing(live, keys, xs + ys, mode) == Missing(live, keys, xs, mode) + Missing(live, keys, ys, mode)
  {
    if ys == [] {
      assert xs + ys == xs;
    } else {
      assert (xs + ys)[..|xs + ys| - 1] == xs + ys[..|ys| - 1];
      MissingConcat(live, keys, xs, ys[..|ys| - 1], mode);
    }
  }

  lemma {:induction false} MissingTagged(live: map<Key, Row>, keys: seq<string>, arts: seq<Article>, id: string,
          mode: Mode)
    ensures Missing(live, keys, Tagged(arts, id), mode) == Tagged(Missing(live, keys, arts, mode), id)
  {
    if arts != [] {
      var init := arts[..|arts| - 1];
      MissingTagged(live, keys, init, id, mode);
      assert Tagged(arts, id)[..|arts| - 1] == Tagged(init, id);
    }
  }

  /** What each source's own list would have asked for. */
  function MissingBySource(live: map<Key, Row>, sources: seq<Source>, t: Target, mode: Mode): seq<Source> {
    seq(|sources|, i requires 0 <= i < |sources| => Source(sources[i].id,
        MissingFor(live, sources[i].articles, t, mode)))
  }

  /** The digest sends every target exactly what the sources one by one would have sent it, in order. */
  lemma {:induction false} DigestMissesTheSame(live: map<Key, Row>, sources: seq<Source>, t: Target, mode: Mode)
    ensures MissingFor(live, Flat(sources), t, mode) == Flat(MissingBySource(live, sources, t, mode))
  {
    if sources != [] {
      var init, s := sources[..|sources| - 1], sources[|sources| - 1];
      DigestMissesTheSame(live, init, t, mode);
      MissingConcat(live, TargetKeys(t), Flat(init), Tagged(s.articles, s.id), mode);
      MissingTagged(live, TargetKeys(t), s.articles, s.id, mode);
      assert MissingBySource(live, sources, t, mode)[..|sources| - 1] == MissingBySource(live, init, t, mode);
    }
  }

  /** The digest as a whole: one list, planned, uploaded and recorded parcel by parcel as a site's is; nothing to
      send counts as a success.  `SyncSite` with a blank site name records by the articles' own names. */
  method SyncDigest(db: SyncHistoryDb, sources: seq<Source>, ts: seq<Target>, mode: Mode, replies: seq<seq<Reply>>,
          clock: seq<nat>)
    returns (result: SiteResult, marked: nat)
    requires db.Valid() && |clock| >= |replies|
    requires |replies| <= |PlanOf(db.synced, Flat(sources), ts, mode)|
    modifies db
    ensures db.Valid()
    ensures var plan := PlanOf(old(db.synced), Flat(sources), ts, mode);
      && db.Content() == RunTo(old(db.Content()), plan, replies, "", KeyMap(ts), clock, |replies|)
      && marked == MarkedTo(old(db.Content()), plan, replies, "", KeyMap(ts), clock, |replies|)
      && (result == Succeeded <==>
           plan == [] || (|replies| == |plan| && UploadAllOk(ResultsTo(replies, |plan|), PendingIps(plan))))
  {
    var flat := Flatten(sources);
    result, marked := SyncSite(db, flat, ts, mode, "", replies, clock);
    if result == NothingPending { result := Succeeded; }
  }
}
