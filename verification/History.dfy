/**
 The sync history database.  `synced_posts` and `deleted_posts` are two tables keyed by
 (url, device); `Tables` is their content and `SyncHistoryDb` the object whose methods change
 them.  A transaction is one call.
 */
module History {
  import opened Lww

  /** A timestamp column: blank, or text whose parsed instant is `key` (unreadable text is 0). */
  datatype Stamp = Blank | At(key: nat)

  /** `_time_key`: blank and unreadable text are the least instant. */
  function TimeKey(s: Stamp): nat {
    match s
    case Blank => 0
    case At(k) => k
  }

  /** Instants shifted by one, so that a blank stamp lies below every readable one. */
  function Instant(s: Stamp): nat {
    match s
    case Blank => 0
    case At(k) => k + 1
  }

  datatype Key = Key(url: string, device: string)

  datatype Row = Row(site: string, title: string, at: Stamp)

  datatype Post = Post(key: Key, site: string, title: string, at: Stamp)

  datatype Tomb = Tomb(key: Key, at: Stamp)

  datatype MarkEntry = MarkEntry(key: Key, site: string, title: string)

  datatype Tables = Tables(live: map<Key, Row>, dead: map<Key, nat>)

  datatype Mode = PerDevice | GlobalUrl

  predicate Named(k: Key) {
    k.url != "" && k.device != ""
  }

  /** Every row has a url and a device, and no key is both live and deleted. */
  ghost predicate Consistent(t: Tables) {
    && t.live.Keys !! t.dead.Keys
    && (forall k :: k in t.live ==> Named(k))
    && (forall k :: k in t.dead ==> Named(k))
  }

  /** What the tables know about one key. */
  function Status(t: Tables, k: Key): Mark {
    if k in t.live then Live(Instant(t.live[k].at))
    else if k in t.dead then Dead(t.dead[k] + 1)
    else Unknown
  }

  // ---------------------------------------------------------------- local changes

  function MarkOne(t: Tables, e: MarkEntry, now: nat): Tables {
    if !Named(e.key) then t
    else Tables(t.live[e.key := Row(e.site, e.title, At(now))], t.dead - {e.key})
  }

  function MarkAll(t: Tables, entries: seq<MarkEntry>, now: nat): Tables {
    if entries == [] then t
    else MarkOne(MarkAll(t, entries[..|entries| - 1], now), entries[|entries| - 1], now)
  }

  function CountNamed(entries: seq<MarkEntry>): nat {
    if entries == [] then 0
    else CountNamed(entries[..|entries| - 1]) + (if Named(entries[|entries| - 1].key) then 1 else 0)
  }

  /** The rows of `doomed` become tombstones stamped `now`. */
  function Bury(t: Tables, doomed: set<Key>, now: nat): Tables {
    Tables(t.live - doomed, t.dead + map k | k in doomed && k in t.live :: now)
  }

  function KeysOfUrl(t: Tables, url: string): set<Key> {
    set k | k in t.live && k.url == url
  }

  // ---------------------------------------------------------------- imports

  function ImportTomb(t: Tables, d: Tomb): Tables {
    if !Named(d.key) || d.at.Blank? then t
    else
      var k := d.key;
      var dead := if k !in t.dead || d.at.key > t.dead[k] then t.dead[k := d.at.key] else t.dead;
      if k !in t.live then Tables(t.live, dead)
      else if dead[k] >= TimeKey(t.live[k].at) then Tables(t.live - {k}, dead)
      else Tables(t.live, dead - {k})
  }

  function Pick(preferred: string, fallback: string): string {
    if preferred != "" then preferred else fallback
  }

  /** `now` is the database's CURRENT_TIMESTAMP, used only when an unseen post has no stamp. */
  function ImportPost(t: Tables, p: Post, now: nat): Tables {
    if !Named(p.key) || (p.key in t.dead && t.dead[p.key] >= TimeKey(p.at)) then t
    else
      var k := p.key;
      var dead := t.dead - {k};
      if k !in t.live then
        Tables(t.live[k := Row(p.site, p.title, if p.at.Blank? then At(now) else p.at)], dead)
      else
        var was := t.live[k];
        if p.at.At? && (was.at.Blank? || p.at.key > TimeKey(was.at)) then
          Tables(t.live[k := Row(Pick(p.site, was.site), Pick(p.title, was.title), p.at)], dead)
        else if p.at.Blank? && was.at.Blank? then
          Tables(t.live[k := Row(Pick(p.site, was.site), Pick(p.title, was.title), Blank)], dead)
        else Tables(t.live, dead)
  }

  function ImportTombs(t: Tables, ds: seq<Tomb>): Tables {
    if ds == [] then t else ImportTomb(ImportTombs(t, ds[..|ds| - 1]), ds[|ds| - 1])
  }

  function ImportPosts(t: Tables, ps: seq<Post>, now: nat): Tables {
    if ps == [] then t else ImportPost(ImportPosts(t, ps[..|ps| - 1], now), ps[|ps| - 1], now)
  }

  /** The deletion is newer than the one held, if any. */
  predicate NewerTomb(t: Tables, d: Tomb) {
    Named(d.key) && d.at.At? && (d.key !in t.dead || d.at.key > t.dead[d.key])
  }

  /** How many deletions of a list are newer than the one held when their turn comes. */
  function NewerTombs(t: Tables, ds: seq<Tomb>): nat {
    if ds == [] then 0
    else NewerTombs(t, ds[..|ds| - 1]) + (if NewerTomb(ImportTombs(t, ds[..|ds| - 1]), ds[|ds| - 1]) then 1 else 0)
  }

  /** The post gets past the deletions, and is new, newer, or fills in an undated row. */
  predicate ChangesRow(t: Tables, p: Post) {
    && Named(p.key) && !(p.key in t.dead && t.dead[p.key] >= TimeKey(p.at))
    && (p.key in t.live ==>
          var was := t.live[p.key];
          if p.at.At? then was.at.Blank? || p.at.key > TimeKey(was.at)
          else was.at.Blank? && (Pick(p.site, was.site) != was.site || Pick(p.title, was.title) != was.title))
  }

  /** That is, it changes `synced_posts`. */
  lemma ChangesRowIff(t: Tables, p: Post, now: nat)
    ensures ChangesRow(t, p) <==> ImportPost(t, p, now).live != t.live
  {
    var r := ImportPost(t, p, now);
    if ChangesRow(t, p) {
      assert p.key !in t.live || r.live[p.key] != t.live[p.key];
    } else if Named(p.key) && p.key in t.live {
      assert t.live[p.key := t.live[p.key]] == t.live;
    }
  }

  /** How many posts of a list add or change a row of `synced_posts` when their turn comes. */
  function RowsChanged(t: Tables, ps: seq<Post>, now: nat): nat {
    if ps == [] then 0
    else
      var init := ps[..|ps| - 1];
      RowsChanged(t, init, now) + (if ChangesRow(ImportPosts(t, init, now), ps[|ps| - 1]) then 1 else 0)
  }

  // ---------------------------------------------------------------- what an import means

  /** The mark a tombstone or a post stands for on key `k`. */
  function TombMark(d: Tomb, k: Key): Mark {
    if d.key == k && d.at.At? then Dead(d.at.key + 1) else Unknown
  }

  function PostMark(p: Post, k: Key): Mark {
    if p.key == k then Live(Instant(p.at)) else Unknown
  }

  function TombMarks(ds: seq<Tomb>, k: Key): Mark {
    if ds == [] then Unknown else Join(TombMarks(ds[..|ds| - 1], k), TombMark(ds[|ds| - 1], k))
  }

  function PostMarks(ps: seq<Post>, k: Key): Mark {
    if ps == [] then Unknown else Join(PostMarks(ps[..|ps| - 1], k), PostMark(ps[|ps| - 1], k))
  }

  ghost predicate Dated(ps: seq<Post>) {
    forall i :: 0 <= i < |ps| ==> ps[i].at.At?
  }

  lemma TombIsJoin(t: Tables, d: Tomb, k: Key)
    requires Consistent(t)
    ensures Consistent(ImportTomb(t, d))
    ensures Named(k) ==> Status(ImportTomb(t, d), k) == Join(Status(t, k), TombMark(d, k))
  {
  }

  /** A post is joined in; the one exception is an undated post for a key nobody knows, which the
      database stamps with its own clock. */
  lemma PostIsJoin(t: Tables, p: Post, now: nat, k: Key)
    requires Consistent(t)
    ensures Consistent(ImportPost(t, p, now))
    ensures Named(k) ==>
      Status(ImportPost(t, p, now), k) ==
        if p.key == k && p.at.Blank? && Status(t, k).Unknown? then Live(now + 1)
        else Join(Status(t, k), PostMark(p, k))
  {
  }

  lemma {:induction false} ImportTombsIsJoin(t: Tables, ds: seq<Tomb>, k: Key)
    requires Consistent(t) && Named(k)
    ensures Consistent(ImportTombs(t, ds))
    ensures Status(ImportTombs(t, ds), k) == Join(Status(t, k), TombMarks(ds, k))
  {
    if ds != [] {
      var init, last := ds[..|ds| - 1], ds[|ds| - 1];
      ImportTombsIsJoin(t, init, k);
      TombIsJoin(ImportTombs(t, init), last, k);
      JoinIsLeastUpperBound(Status(t, k), TombMarks(init, k), TombMark(last, k));
    }
  }

  lemma {:induction false} ImportPostsIsJoin(t: Tables, ps: seq<Post>, now: nat, k: Key)
    requires Consistent(t) && Dated(ps) && Named(k)
    ensures Consistent(ImportPosts(t, ps, now))
    ensures Status(ImportPosts(t, ps, now), k) == Join(Status(t, k), PostMarks(ps, k))
  {
    if ps != [] {
      var init, last := ps[..|ps| - 1], ps[|ps| - 1];
      ImportPostsIsJoin(t, init, now, k);
      PostIsJoin(ImportPosts(t, init, now), last, now, k);
      JoinIsLeastUpperBound(Status(t, k), PostMarks(init, k), PostMark(last, k));
    }
  }

  // ---------------------------------------------------------------- any sequence of imports

  /** One call of `import_deleted_posts` or `import_posts_union`. */
  datatype Batch = Deletions(tombs: seq<Tomb>) | Deliveries(posts: seq<Post>)

  function ImportBatch(t: Tables, b: Batch, now: nat): Tables {
    match b
    case Deletions(ds) => ImportTombs(t, ds)
    case Deliveries(ps) => ImportPosts(t, ps, now)
  }

  function ImportBatches(t: Tables, bs: seq<Batch>, now: nat): Tables {
    if bs == [] then t else ImportBatch(ImportBatches(t, bs[..|bs| - 1], now), bs[|bs| - 1], now)
  }

  function BatchMarks(b: Batch, k: Key): Mark {
    match b
    case Deletions(ds) => TombMarks(ds, k)
    case Deliveries(ps) => PostMarks(ps, k)
  }

  function AllMarks(bs: seq<Batch>, k: Key): Mark {
    if bs == [] then Unknown else Join(AllMarks(bs[..|bs| - 1], k), BatchMarks(bs[|bs| - 1], k))
  }

  ghost predicate AllDated(bs: seq<Batch>) {
    forall i :: 0 <= i < |bs| && bs[i].Deliveries? ==> Dated(bs[i].posts)
  }

  /** The records a sequence of batches carries, whatever their order or repetition. */
  ghost function TombSet(bs: seq<Batch>): set<Tomb> {
    set i, j | 0 <= i < |bs| && bs[i].Deletions? && 0 <= j < |bs[i].tombs| :: bs[i].tombs[j]
  }

  ghost function PostSet(bs: seq<Batch>): set<Post> {
    set i, j | 0 <= i < |bs| && bs[i].Deliveries? && 0 <= j < |bs[i].posts| :: bs[i].posts[j]
  }

  lemma {:induction false} TombMarksBound(ds: seq<Tomb>, k: Key, m: Mark)
    ensures forall i :: 0 <= i < |ds| ==> Below(TombMark(ds[i], k), TombMarks(ds, k))
    ensures (forall i :: 0 <= i < |ds| ==> Below(TombMark(ds[i], k), m)) ==> Below(TombMarks(ds, k), m)
  {
    if ds != [] {
      TombMarksBound(ds[..|ds| - 1], k, m);
    }
  }

  lemma {:induction false} PostMarksBound(ps: seq<Post>, k: Key, m: Mark)
    ensures forall i :: 0 <= i < |ps| ==> Below(PostMark(ps[i], k), PostMarks(ps, k))
    ensures (forall i :: 0 <= i < |ps| ==> Below(PostMark(ps[i], k), m)) ==> Below(PostMarks(ps, k), m)
  {
    if ps != [] {
      PostMarksBound(ps[..|ps| - 1], k, m);
    }
  }

  /** `AllMarks` is an upper bound of every record in the batches ... */
  lemma {:induction false} AllMarksAbove(bs: seq<Batch>, k: Key)
    ensures forall d :: d in TombSet(bs) ==> Below(TombMark(d, k), AllMarks(bs, k))
    ensures forall p :: p in PostSet(bs) ==> Below(PostMark(p, k), AllMarks(bs, k))
  {
    if bs != [] {
      var init, last := bs[..|bs| - 1], bs[|bs| - 1];
      AllMarksAbove(init, k);
      match last {
        case Deletions(ds) => TombMarksBound(ds, k, Unknown);
        case Deliveries(ps) => PostMarksBound(ps, k, Unknown);
      }
      forall d | d in TombSet(bs) ensures Below(TombMark(d, k), AllMarks(bs, k)) {
        var i, j :| 0 <= i < |bs| && bs[i].Deletions? && 0 <= j < |bs[i].tombs| && bs[i].tombs[j] == d;
        if i < |bs| - 1 { assert init[i].tombs[j] in TombSet(init); }
      }
      forall p | p in PostSet(bs) ensures Below(PostMark(p, k), AllMarks(bs, k)) {
        var i, j :| 0 <= i < |bs| && bs[i].Deliveries? && 0 <= j < |bs[i].posts| && bs[i].posts[j] == p;
        if i < |bs| - 1 { assert init[i].posts[j] in PostSet(init); }
      }
    }
  }

  /** ... and the least one. */
  lemma {:induction false} AllMarksLeast(bs: seq<Batch>, k: Key, m: Mark)
    requires forall d :: d in TombSet(bs) ==> Below(TombMark(d, k), m)
    requires forall p :: p in PostSet(bs) ==> Below(PostMark(p, k), m)
    ensures Below(AllMarks(bs, k), m)
  {
    if bs != [] {
      var init, last := bs[..|bs| - 1], bs[|bs| - 1];
      assert TombSet(init) <= TombSet(bs) && PostSet(init) <= PostSet(bs) by {
        forall d | d in TombSet(init) ensures d in TombSet(bs) {
          var i, j :| 0 <= i < |init| && init[i].Deletions? && 0 <= j < |init[i].tombs| && init[i].tombs[j] == d;
          assert bs[i].tombs[j] == d;
        }
        forall p | p in PostSet(init) ensures p in PostSet(bs) {
          var i, j :| 0 <= i < |init| && init[i].Deliveries? && 0 <= j < |init[i].posts| && init[i].posts[j] == p;
          assert bs[i].posts[j] == p;
        }
      }
      AllMarksLeast(init, k, m);
      match last {
        case Deletions(ds) =>
          forall j | 0 <= j < |ds| ensures Below(TombMark(ds[j], k), m) {
            assert bs[|bs| - 1].tombs[j] in TombSet(bs);
          }
          TombMarksBound(ds, k, m);
        case Deliveries(ps) =>
          forall j | 0 <= j < |ps| ensures Below(PostMark(ps[j], k), m) {
            assert bs[|bs| - 1].posts[j] in PostSet(bs);
          }
          PostMarksBound(ps, k, m);
      }
    }
  }

  lemma {:induction false} ImportBatchesIsJoin(t: Tables, bs: seq<Batch>, now: nat, k: Key)
    requires Consistent(t) && AllDated(bs) && Named(k)
    ensures Consistent(ImportBatches(t, bs, now))
    ensures Status(ImportBatches(t, bs, now), k) == Join(Status(t, k), AllMarks(bs, k))
  {
    if bs != [] {
      var init, last := bs[..|bs| - 1], bs[|bs| - 1];
      ImportBatchesIsJoin(t, init, now, k);
      match last {
        case Deletions(ds) => ImportTombsIsJoin(ImportBatches(t, init, now), ds, k);
        case Deliveries(ps) => ImportPostsIsJoin(ImportBatches(t, init, now), ps, now, k);
      }
      JoinIsLeastUpperBound(Status(t, k), AllMarks(init, k), BatchMarks(last, k));
    }
  }

  /** Importing is a join: batches that carry the same dated records, in any order, split and
      repetition, leave every key with the same live-or-deleted status and time. */
  lemma ImportOrderIrrelevant(t: Tables, bs: seq<Batch>, cs: seq<Batch>, now: nat, later: nat, k: Key)
    requires Consistent(t) && AllDated(bs) && AllDated(cs) && Named(k)
    requires TombSet(bs) == TombSet(cs) && PostSet(bs) == PostSet(cs)
    ensures Status(ImportBatches(t, bs, now), k) == Status(ImportBatches(t, cs, later), k)
  {
    ImportBatchesIsJoin(t, bs, now, k);
    ImportBatchesIsJoin(t, cs, later, k);
    AllMarksAbove(bs, k);
    AllMarksAbove(cs, k);
    AllMarksLeast(bs, k, AllMarks(cs, k));
    AllMarksLeast(cs, k, AllMarks(bs, k));
    BelowAntisymmetric(AllMarks(bs, k), AllMarks(cs, k));
  }

  /** An undated post breaks this: the same two posts in the other order leave another time,
      because the database's clock stands in for the missing stamp only when the key is new. */
  lemma UndatedPostsDependOnOrder(k: Key, now: nat)
    requires Named(k) && now > 0
    ensures var t := Tables(map[], map[]);
      var undated, dated := Post(k, "", "", Blank), Post(k, "", "", At(0));
      Status(ImportPosts(t, [undated, dated], now), k) != Status(ImportPosts(t, [dated, undated], now), k)
  {
    var t := Tables(map[], map[]);
    var undated, dated := Post(k, "", "", Blank), Post(k, "", "", At(0));
    assert [undated, dated][..1] == [undated] && [dated, undated][..1] == [dated];
    assert ImportPosts(t, [undated], now) == ImportPost(t, undated, now) by { assert [undated][..0] == []; }
    assert ImportPosts(t, [dated], now) == ImportPost(t, dated, now) by { assert [dated][..0] == []; }
  }

  /** A deletion is undone by an import only when some post for that key is strictly later. */
  lemma {:induction false} DeletionUndoneOnlyByLaterPost(t: Tables, ps: seq<Post>, now: nat, k: Key)
    requires Consistent(t) && k in t.dead && Named(k)
    ensures Consistent(ImportPosts(t, ps, now))
    ensures k in ImportPosts(t, ps, now).live <==>
            exists i :: 0 <= i < |ps| && ps[i].key == k && TimeKey(ps[i].at) > t.dead[k]
    ensures k !in ImportPosts(t, ps, now).live ==>
            k in ImportPosts(t, ps, now).dead && ImportPosts(t, ps, now).dead[k] == t.dead[k]
  {
    if ps != [] {
      var init, last := ps[..|ps| - 1], ps[|ps| - 1];
      DeletionUndoneOnlyByLaterPost(t, init, now, k);
      PostIsJoin(ImportPosts(t, init, now), last, now, k);
      if exists i :: 0 <= i < |init| && init[i].key == k && TimeKey(init[i].at) > t.dead[k] {
        var i :| 0 <= i < |init| && init[i].key == k && TimeKey(init[i].at) > t.dead[k];
        assert ps[i].key == k;
      } else if last.key == k && TimeKey(last.at) > t.dead[k] {
        assert ps[|ps| - 1].key == k;
      }
    }
  }

  // ---------------------------------------------------------------- what a local change means

  lemma {:induction false} MarkAllStatus(t: Tables, es: seq<MarkEntry>, now: nat, k: Key)
    requires Consistent(t)
    ensures Consistent(MarkAll(t, es, now))
    ensures Status(MarkAll(t, es, now), k) ==
      if Named(k) && exists i :: 0 <= i < |es| && es[i].key == k then Live(now + 1) else Status(t, k)
  {
    if es != [] {
      var init, last := es[..|es| - 1], es[|es| - 1];
      MarkAllStatus(t, init, now, k);
      if exists i :: 0 <= i < |init| && init[i].key == k {
        var i :| 0 <= i < |init| && init[i].key == k;
        assert es[i].key == k;
      }
      if last.key == k { assert es[|es| - 1].key == k; }
    }
  }

  lemma BuryStatus(t: Tables, doomed: set<Key>, now: nat, k: Key)
    requires Consistent(t)
    ensures Consistent(Bury(t, doomed, now))
    ensures Status(Bury(t, doomed, now), k) ==
      if k in doomed && k in t.live then Dead(now + 1) else Status(t, k)
  {
  }

  /** A local delivery stamped `now` acts as a join exactly when the clock is at or past the live
      stamp, and strictly past the tombstone, it overwrites. */
  lemma MarkIsJoinIffClockAhead(t: Tables, e: MarkEntry, now: nat)
    requires Consistent(t) && Named(e.key)
    ensures Status(MarkOne(t, e, now), e.key) == Join(Status(t, e.key), Live(now + 1))
      <==> (e.key in t.live ==> TimeKey(t.live[e.key].at) <= now) && (e.key in t.dead ==> t.dead[e.key] < now)
  {
  }

  /** A local deletion acts as a join exactly when the clock has reached every stamp it buries. */
  lemma BuryIsJoinIffClockAhead(t: Tables, doomed: set<Key>, now: nat, k: Key)
    requires Consistent(t) && k in doomed && k in t.live
    ensures Status(Bury(t, doomed, now), k) == Join(Status(t, k), Dead(now + 1))
      <==> TimeKey(t.live[k].at) <= now
  {
  }

  // ---------------------------------------------------------------- the database object

  class SyncHistoryDb {
    var synced: map<Key, Row>
    var deleted: map<Key, nat>

    ghost function Content(): Tables
      reads this
    {
      Tables(synced, deleted)
    }

    ghost predicate Valid()
      reads this
    {
      Consistent(Content())
    }

    constructor ()
      ensures Valid() && Content() == Tables(map[], map[])
    {
      synced, deleted := map[], map[];
    }

    method MarkSyncedMany(entries: seq<MarkEntry>, now: nat) returns (saved: nat)
      requires Valid()
      modifies this
      ensures Valid() && Content() == MarkAll(old(Content()), entries, now)
      ensures saved == CountNamed(entries)
    {
      ghost var t := Content();
      var rows: seq<MarkEntry> := [];
      for i := 0 to |entries|
        invariant MarkAll(t, rows, now) == MarkAll(t, entries[..i], now)
        invariant |rows| == CountNamed(entries[..i])
        invariant forall j :: 0 <= j < |rows| ==> Named(rows[j].key)
        invariant Content() == t
      {
        assert entries[..i + 1][..i] == entries[..i];
        if Named(entries[i].key) {
          assert (rows + [entries[i]])[..|rows|] == rows;
          rows := rows + [entries[i]];
        }
      }
      assert entries[..|entries|] == entries;
      for i := 0 to |rows|
        invariant synced == MarkAll(t, rows[..i], now).live && deleted == t.dead
      {
        assert rows[..i + 1][..i] == rows[..i];
        synced := synced[rows[i].key := Row(rows[i].site, rows[i].title, At(now))];
      }
      assert rows[..|rows|] == rows;
      for i := 0 to |rows|
        invariant synced == MarkAll(t, rows, now).live && deleted == MarkAll(t, rows[..i], now).dead
      {
        assert rows[..i + 1][..i] == rows[..i];
        deleted := deleted - {rows[i].key};
      }
      assert rows[..|rows|] == rows;
      MarkAllStatus(t, entries, now, Key("", ""));
      saved := |rows|;
    }

    method DeleteEntry(url: string, now: nat)
      requires Valid()
      modifies this
      ensures Valid()
      ensures Content() == if url == "" then old(Content())
                           else Bury(old(Content()), KeysOfUrl(old(Content()), url), now)
    {
      if url == "" { return; }
      ghost var t := Content();
      deleted := deleted + map k | k in synced && k.url == url :: now;
      synced := map k | k in synced && k.url != url :: synced[k];
      assert Content() == Bury(t, KeysOfUrl(t, url), now);
    }

    method ClearAll(now: nat)
      requires Valid()
      modifies this
      ensures Valid() && Content() == Bury(old(Content()), old(synced).Keys, now)
    {
      ghost var t := Content();
      deleted := deleted + map k | k in synced :: now;
      synced := map[];
      assert Content() == Bury(t, t.live.Keys, now);
    }

    method ImportDeletedPosts(ds: seq<Tomb>) returns (changed: nat)
      requires Valid()
      modifies this
      ensures Valid() && Content() == ImportTombs(old(Content()), ds)
      ensures changed == NewerTombs(old(Content()), ds)
      ensures changed == 0 ==> Content() == old(Content())
    {
      ghost var t := Content();
      changed := 0;
      for i := 0 to |ds|
        invariant Valid() && Content() == ImportTombs(t, ds[..i])
        invariant changed == NewerTombs(t, ds[..i])
        invariant changed == 0 ==> Content() == t
      {
        var d := ds[i];
        assert ds[..i + 1][..i] == ds[..i];
        if Named(d.key) && d.at.At? {
          if d.key !in deleted || d.at.key > deleted[d.key] {
            deleted := deleted[d.key := d.at.key];
            changed := changed + 1;
          }
          if d.key in synced {
            if deleted[d.key] >= TimeKey(synced[d.key].at) {
              synced := synced - {d.key};
            } else {
              deleted := deleted - {d.key};
            }
          }
        }
      }
      assert ds[..|ds|] == ds;
    }

    method ImportPostsUnion(ps: seq<Post>, now: nat) returns (changed: nat)
      requires Valid()
      modifies this
      ensures Valid() && Content() == ImportPosts(old(Content()), ps, now)
      ensures changed == RowsChanged(old(Content()), ps, now)
      ensures changed == 0 ==> Content() == old(Content())
    {
      ghost var t := Content();
      changed := 0;
      for i := 0 to |ps|
        invariant Valid() && Content() == ImportPosts(t, ps[..i], now)
        invariant changed == RowsChanged(t, ps[..i], now)
        invariant changed == 0 ==> Content() == t
      {
        var p := ps[i];
        assert ps[..i + 1][..i] == ps[..i];
        ghost var before, counted := Content(), changed;
        if Named(p.key) && !(p.key in deleted && deleted[p.key] >= TimeKey(p.at)) {
          deleted := deleted - {p.key};
          if p.key !in synced {
            synced := synced[p.key := Row(p.site, p.title, if p.at.Blank? then At(now) else p.at)];
            changed := changed + 1;
          } else {
            var was := synced[p.key];
            if p.at.At? && (was.at.Blank? || p.at.key > TimeKey(was.at)) {
              synced := synced[p.key := Row(Pick(p.site, was.site), Pick(p.title, was.title), p.at)];
              changed := changed + 1;
            } else if p.at.Blank? && was.at.Blank? {
              if (p.site != "" && p.site != was.site) || (p.title != "" && p.title != was.title) {
                synced := synced[p.key := Row(Pick(p.site, was.site), Pick(p.title, was.title), Blank)];
                changed := changed + 1;
              }
            }
          }
        }
        assert Content() == ImportPost(before, p, now);
        assert changed == counted + if ChangesRow(before, p) then 1 else 0;
      }
      assert ps[..|ps|] == ps;
    }

    method IsSyncedForAnyKey(url: string, keys: seq<string>) returns (r: bool)
      ensures r <==> SyncedForAny(synced, url, keys)
    {
      if url == "" { return false; }
      for i := 0 to |keys|
        invariant forall j :: 0 <= j < i ==> keys[j] == "" || Key(url, keys[j]) !in synced
      {
        if keys[i] != "" && Key(url, keys[i]) in synced { return true; }
      }
      return false;
    }

    method NeedsSync(url: string, targets: seq<string>, mode: Mode, aliases: seq<seq<string>>)
      returns (r: bool)
      ensures r <==> Needs(synced, url, KeyGroups(targets, aliases), mode)
    {
      if url == "" { return false; }
      if mode == GlobalUrl { return !SyncedUrl(synced, url); }
      var groups := KeyGroups(targets, aliases);
      if groups == [] { return !SyncedUrl(synced, url); }
      for i := 0 to |groups|
        invariant forall j :: 0 <= j < i ==> SyncedForAny(synced, url, groups[j])
      {
        var any := IsSyncedForAnyKey(url, groups[i]);
        if !any { return true; }
      }
      return false;
    }

    method PendingDeviceIps(url: string, targets: seq<string>, mode: Mode, aliases: seq<seq<string>>)
      returns (pending: seq<string>)
      ensures pending == PendingHeads(synced, url, KeyGroups(targets, aliases), mode)
    {
      var groups := KeyGroups(targets, aliases);
      pending := [];
      if url == "" || groups == [] || (mode == GlobalUrl && SyncedUrl(synced, url)) { return; }
      for i := 0 to |groups|
        invariant pending == PendingHeads(synced, url, groups[..i], mode)
      {
        assert groups[..i + 1][..i] == groups[..i];
        var any := IsSyncedForAnyKey(url, groups[i]);
        if mode == GlobalUrl || !any {
          pending := pending + [groups[i][0]];
        }
      }
      assert groups[..|groups|] == groups;
    }
  }

  // ---------------------------------------------------------------- queries

  predicate SyncedUrl(live: map<Key, Row>, url: string) {
    url != "" && exists k :: k in live && k.url == url
  }

  predicate SyncedForAny(live: map<Key, Row>, url: string, keys: seq<string>) {
    url != "" && exists j :: 0 <= j < |keys| && keys[j] != "" && Key(url, keys[j]) in live
  }

  /** The candidate keys per device: the alias groups when given, else one group per target. */
  function KeyGroups(targets: seq<string>, aliases: seq<seq<string>>): (gs: seq<seq<string>>)
    ensures forall i :: 0 <= i < |gs| ==> gs[i] != []
  {
    if aliases != [] then NonEmpty(aliases) else Singletons(targets)
  }

  function NonEmpty(gs: seq<seq<string>>): (r: seq<seq<string>>)
    ensures forall i :: 0 <= i < |r| ==> r[i] != []
  {
    if gs == [] then []
    else NonEmpty(gs[..|gs| - 1]) + (if gs[|gs| - 1] == [] then [] else [gs[|gs| - 1]])
  }

  function Singletons(targets: seq<string>): (r: seq<seq<string>>)
    ensures forall i :: 0 <= i < |r| ==> r[i] != []
  {
    if targets == [] then []
    else
      var last := targets[|targets| - 1];
      Singletons(targets[..|targets| - 1]) + (if last == "" then [] else [[last]])
  }

  predicate Needs(live: map<Key, Row>, url: string, groups: seq<seq<string>>, mode: Mode) {
    url != "" &&
    if mode == GlobalUrl || groups == [] then !SyncedUrl(live, url)
    else exists i :: 0 <= i < |groups| && !SyncedForAny(live, url, groups[i])
  }

  function PendingHeads(live: map<Key, Row>, url: string, groups: seq<seq<string>>, mode: Mode): seq<string>
    requires forall i :: 0 <= i < |groups| ==> groups[i] != []
  {
    if url == "" || groups == [] || (mode == GlobalUrl && SyncedUrl(live, url)) then []
    else
      var last := groups[|groups| - 1];
      PendingHeads(live, url, groups[..|groups| - 1], mode) +
      (if mode == GlobalUrl || !SyncedForAny(live, url, last) then [last[0]] else [])
  }

  /** The two ways to ask agree wherever there is a device to ask about: a url needs syncing exactly when some
      device is pending.  With no devices nothing is pending, but a url nobody has still counts as needed. */
  lemma {:induction false} NeedsIffPending(live: map<Key, Row>, url: string, groups: seq<seq<string>>, mode: Mode)
    requires forall i :: 0 <= i < |groups| ==> groups[i] != []
    ensures groups != [] ==> (Needs(live, url, groups, mode) <==> PendingHeads(live, url, groups, mode) != [])
    ensures groups == [] ==>
              (PendingHeads(live, url, groups, mode) == [] &&
                  (Needs(live, url, groups, mode) <==> url != "" && !SyncedUrl(live, url)))
  {
    if url != "" && |groups| > 1 {
      var init := groups[..|groups| - 1];
      NeedsIffPending(live, url, init, mode);
      if mode == PerDevice {
        if exists i :: 0 <= i < |groups| && !SyncedForAny(live, url, groups[i]) {
          var i :| 0 <= i < |groups| && !SyncedForAny(live, url, groups[i]);
          if i < |groups| - 1 { assert !SyncedForAny(live, url, init[i]); }
        }
        if exists i :: 0 <= i < |init| && !SyncedForAny(live, url, init[i]) {
          var i :| 0 <= i < |init| && !SyncedForAny(live, url, init[i]);
          assert !SyncedForAny(live, url, groups[i]);
        }
      }
    }
  }

  /** More alias keys never turn a delivered article into a pending one. */
  lemma MoreKeysNeverNeedMore(live: map<Key, Row>, url: string, gs: seq<seq<string>>, hs: seq<seq<string>>, mode: Mode)
    requires |gs| == |hs|
    requires forall i, k :: 0 <= i < |gs| && k in gs[i] ==> k in hs[i]
    requires !Needs(live, url, gs, mode)
    ensures !Needs(live, url, hs, mode)
  {
    forall i | 0 <= i < |hs| && SyncedForAny(live, url, gs[i]) ensures SyncedForAny(live, url, hs[i]) {
      var j :| 0 <= j < |gs[i]| && gs[i][j] != "" && Key(url, gs[i][j]) in live;
      assert gs[i][j] in hs[i];
      var j' :| 0 <= j' < |hs[i]| && hs[i][j'] == gs[i][j];
    }
  }
}
