/**
 Per-installation snapshots of the sync history and their reconciliation.  Each PC publishes one
 snapshot; a reader concatenates the canonical history file with every snapshot, keeps the newest
 record per key on each side, and drops the side that loses (a deletion wins a tie).
 */
module Replicas {
  import opened Wrappers
  import opened Lww
  import opened History

  datatype Result<+T> = Ok(value: T) | TooManySnapshots | InvalidIdentity

  /** The posts and deletions of a history file or of one snapshot. */
  datatype Payload = Payload(posts: seq<Post>, tombs: seq<Tomb>)

  const MAX_SNAPSHOTS := 128

  function Marks(p: Payload, k: Key): Mark {
    Join(TombMarks(p.tombs, k), PostMarks(p.posts, k))
  }

  predicate ValidIdentities(p: Payload) {
    && (forall i :: 0 <= i < |p.posts| ==> Named(p.posts[i].key))
    && (forall i :: 0 <= i < |p.tombs| ==> Named(p.tombs[i].key))
  }

  ghost predicate DatedPayload(p: Payload) {
    Dated(p.posts) && forall i :: 0 <= i < |p.tombs| ==> p.tombs[i].at.At?
  }

  // ---------------------------------------------------------------- specification

  /** The newest post per key; the first one met wins a tie. */
  function NewestPosts(ps: seq<Post>): (m: map<Key, Post>)
    ensures forall k :: k in m ==> m[k].key == k
  {
    if ps == [] then map[]
    else
      var m, p := NewestPosts(ps[..|ps| - 1]), ps[|ps| - 1];
      if p.key !in m || TimeKey(p.at) > TimeKey(m[p.key].at) then m[p.key := p] else m
  }

  function NewestTombs(ds: seq<Tomb>): (m: map<Key, Tomb>)
    ensures forall k :: k in m ==> m[k].key == k
  {
    if ds == [] then map[]
    else
      var m, d := NewestTombs(ds[..|ds| - 1]), ds[|ds| - 1];
      if d.key !in m || TimeKey(d.at) > TimeKey(m[d.key].at) then m[d.key := d] else m
  }

  /** Insertion order of a dictionary filled with these keys. */
  function KeyOrder(ks: seq<Key>): (r: seq<Key>)
    ensures forall k :: k in r <==> k in ks
  {
    if ks == [] then []
    else
      var r, k := KeyOrder(ks[..|ks| - 1]), ks[|ks| - 1];
      assert ks == ks[..|ks| - 1] + [k];
      if k in r then r else r + [k]
  }

  function PostKeys(ps: seq<Post>): seq<Key> { seq(|ps|, i requires 0 <= i < |ps| => ps[i].key) }

  function TombKeys(ds: seq<Tomb>): seq<Key> { seq(|ds|, i requires 0 <= i < |ds| => ds[i].key) }

  /** The values of a dictionary, listed in key order. */
  function Values<V>(order: seq<Key>, m: map<Key, V>): seq<V> {
    if order == [] then []
    else
      var k := order[|order| - 1];
      Values(order[..|order| - 1], m) + (if k in m then [m[k]] else [])
  }

  predicate TombWins(d: Tomb, p: Post) {
    TimeKey(d.at) >= TimeKey(p.at)
  }

  /** Keys known on both sides whose deletion wins, and those whose delivery wins. */
  function LosingPosts(ps: map<Key, Post>, ds: map<Key, Tomb>): set<Key> {
    set k | k in ps && k in ds && TombWins(ds[k], ps[k])
  }

  function LosingTombs(ps: map<Key, Post>, ds: map<Key, Tomb>): set<Key> {
    set k | k in ps && k in ds && !TombWins(ds[k], ps[k])
  }

  function Reconcile(h: Payload): Payload {
    var ps, ds := NewestPosts(h.posts), NewestTombs(h.tombs);
    Payload(Values(KeyOrder(PostKeys(h.posts)), ps - LosingPosts(ps, ds)),
            Values(KeyOrder(TombKeys(h.tombs)), ds - LosingTombs(ps, ds)))
  }

  function Gather(base: Payload, snaps: seq<Payload>): Payload {
    if snaps == [] then base
    else
      var g, s := Gather(base, snaps[..|snaps| - 1]), snaps[|snaps| - 1];
      Payload(g.posts + s.posts, g.tombs + s.tombs)
  }

  /** `snaps` is None when no snapshot directory exists; the history file then passes unchanged. */
  function MergeHistory(canon: Option<Payload>, snaps: Option<seq<Payload>>): Result<Payload> {
    var base := if canon.Some? then canon.value else Payload([], []);
    if snaps.None? then Ok(base)
    else if |snaps.value| > MAX_SNAPSHOTS then TooManySnapshots
    else
      var all := Gather(base, snaps.value);
      if ValidIdentities(all) then Ok(Reconcile(all)) else InvalidIdentity
  }

  // ---------------------------------------------------------------- the loops

  lemma {:induction false} OrderHoldsKeys(ps: seq<Post>, ds: seq<Tomb>, k: Key)
    ensures k in KeyOrder(PostKeys(ps)) <==> k in NewestPosts(ps)
    ensures k in KeyOrder(TombKeys(ds)) <==> k in NewestTombs(ds)
    decreases |ps| + |ds|
  {
    if ps != [] {
      OrderHoldsKeys(ps[..|ps| - 1], [], k);
      assert PostKeys(ps) == PostKeys(ps[..|ps| - 1]) + [ps[|ps| - 1].key];
    }
    if ds != [] {
      OrderHoldsKeys([], ds[..|ds| - 1], k);
      assert TombKeys(ds) == TombKeys(ds[..|ds| - 1]) + [ds[|ds| - 1].key];
    }
  }

  /** The dictionary and its order after the first `n` records, all of them named. */
  ghost predicate CollectPostsTo(ps: seq<Post>, n: nat, posts: map<Key, Post>, order: seq<Key>)
    requires n <= |ps|
  {
    && (forall j :: 0 <= j < n ==> Named(ps[j].key))
    && posts == NewestPosts(ps[..n]) && order == KeyOrder(PostKeys(ps[..n]))
  }

  lemma CollectPostsStep(ps: seq<Post>, n: nat, posts: map<Key, Post>, order: seq<Key>)
    requires n < |ps| && CollectPostsTo(ps, n, posts, order) && Named(ps[n].key)
    ensures var p := ps[n];
      CollectPostsTo(ps, n + 1,
        if p.key !in posts || TimeKey(p.at) > TimeKey(posts[p.key].at) then posts[p.key := p] else posts,
        if p.key !in posts then order + [p.key] else order)
  {
    assert ps[..n + 1][..n] == ps[..n];
    assert PostKeys(ps[..n + 1])[..n] == PostKeys(ps[..n]);
    OrderHoldsKeys(ps[..n], [], ps[n].key);
  }

  method CollectPosts(ps: seq<Post>) returns (posts: map<Key, Post>, order: seq<Key>, valid: bool)
    ensures valid <==> forall i :: 0 <= i < |ps| ==> Named(ps[i].key)
    ensures valid ==> posts == NewestPosts(ps) && order == KeyOrder(PostKeys(ps))
  {
    posts, order := map[], [];
    for i := 0 to |ps|
      invariant CollectPostsTo(ps, i, posts, order)
    {
      var p := ps[i];
      if !Named(p.key) { return map[], [], false; }
      CollectPostsStep(ps, i, posts, order);
      if p.key !in posts { order := order + [p.key]; }
      if p.key !in posts || TimeKey(p.at) > TimeKey(posts[p.key].at) { posts := posts[p.key := p]; }
    }
    assert ps[..|ps|] == ps;
    valid := true;
  }

  /** The dictionary and its order after the first `n` records, all of them named. */
  ghost predicate CollectTombsTo(ds: seq<Tomb>, n: nat, tombs: map<Key, Tomb>, order: seq<Key>)
    requires n <= |ds|
  {
    && (forall j :: 0 <= j < n ==> Named(ds[j].key))
    && tombs == NewestTombs(ds[..n]) && order == KeyOrder(TombKeys(ds[..n]))
  }

  lemma CollectTombsStep(ds: seq<Tomb>, n: nat, tombs: map<Key, Tomb>, order: seq<Key>)
    requires n < |ds| && CollectTombsTo(ds, n, tombs, order) && Named(ds[n].key)
    ensures var d := ds[n];
      CollectTombsTo(ds, n + 1,
        if d.key !in tombs || TimeKey(d.at) > TimeKey(tombs[d.key].at) then tombs[d.key := d] else tombs,
        if d.key !in tombs then order + [d.key] else order)
  {
    assert ds[..n + 1][..n] == ds[..n];
    assert TombKeys(ds[..n + 1])[..n] == TombKeys(ds[..n]);
    OrderHoldsKeys([], ds[..n], ds[n].key);
  }

  method CollectTombs(ds: seq<Tomb>) returns (tombs: map<Key, Tomb>, order: seq<Key>, valid: bool)
    ensures valid <==> forall i :: 0 <= i < |ds| ==> Named(ds[i].key)
    ensures valid ==> tombs == NewestTombs(ds) && order == KeyOrder(TombKeys(ds))
  {
    tombs, order := map[], [];
    for i := 0 to |ds|
      invariant CollectTombsTo(ds, i, tombs, order)
    {
      var d := ds[i];
      if !Named(d.key) { return map[], [], false; }
      CollectTombsStep(ds, i, tombs, order);
      if d.key !in tombs { order := order + [d.key]; }
      if d.key !in tombs || TimeKey(d.at) > TimeKey(tombs[d.key].at) { tombs := tombs[d.key := d]; }
    }
    assert ds[..|ds|] == ds;
    valid := true;
  }

  /** On every key known to both sides, one side goes. */
  method DropLosers(ps: map<Key, Post>, ds: map<Key, Tomb>) returns (posts: map<Key, Post>, tombs: map<Key, Tomb>)
    ensures posts == ps - LosingPosts(ps, ds) && tombs == ds - LosingTombs(ps, ds)
  {
    posts, tombs := ps, ds;
    var shared := posts.Keys * tombs.Keys;
    while shared != {}
      invariant shared <= ps.Keys * ds.Keys
      invariant posts == ps - (LosingPosts(ps, ds) - shared)
      invariant tombs == ds - (LosingTombs(ps, ds) - shared)
      decreases shared
    {
      var k :| k in shared;
      shared := shared - {k};
      if TombWins(tombs[k], posts[k]) { posts := posts - {k}; } else { tombs := tombs - {k}; }
    }
  }

  method ListValues<V>(order: seq<Key>, m: map<Key, V>) returns (r: seq<V>)
    ensures r == Values(order, m)
  {
    r := [];
    for i := 0 to |order|
      invariant r == Values(order[..i], m)
    {
      assert order[..i + 1][..i] == order[..i];
      if order[i] in m { r := r + [m[order[i]]]; }
    }
    assert order[..|order|] == order;
  }

  /** The history half of `merge_replica_inputs`. */
  method MergeReplicaInputs(canon: Option<Payload>, snaps: Option<seq<Payload>>)
    returns (r: Result<Payload>)
    ensures r == MergeHistory(canon, snaps)
  {
    var history := if canon.Some? then canon.value else Payload([], []);
    if snaps.None? { return Ok(history); }
    if |snaps.value| > MAX_SNAPSHOTS { return TooManySnapshots; }
    ghost var base := history;
    for i := 0 to |snaps.value|
      invariant history == Gather(base, snaps.value[..i])
    {
      assert snaps.value[..i + 1][..i] == snaps.value[..i];
      history := Payload(history.posts + snaps.value[i].posts, history.tombs + snaps.value[i].tombs);
    }
    assert snaps.value[..|snaps.value|] == snaps.value;

    var posts, postOrder, postsValid := CollectPosts(history.posts);
    if !postsValid { return InvalidIdentity; }
    var tombs, tombOrder, tombsValid := CollectTombs(history.tombs);
    if !tombsValid { return InvalidIdentity; }

    posts, tombs := DropLosers(posts, tombs);
    var postList := ListValues(postOrder, posts);
    var tombList := ListValues(tombOrder, tombs);
    r := Ok(Payload(postList, tombList));
  }

  // ---------------------------------------------------------------- meaning of the reconciled payload

  lemma {:induction false} NewestPostsMark(ps: seq<Post>, k: Key)
    requires Dated(ps)
    ensures k in NewestPosts(ps) <==> k in PostKeys(ps)
    ensures k in NewestPosts(ps) ==> NewestPosts(ps)[k] in ps
    ensures PostMarks(ps, k) ==
            if k in NewestPosts(ps) then Live(Instant(NewestPosts(ps)[k].at)) else Unknown
  {
    if ps != [] {
      NewestPostsMark(ps[..|ps| - 1], k);
      assert PostKeys(ps) == PostKeys(ps[..|ps| - 1]) + [ps[|ps| - 1].key];
    }
  }

  lemma {:induction false} NewestTombsMark(ds: seq<Tomb>, k: Key)
    requires forall i :: 0 <= i < |ds| ==> ds[i].at.At?
    ensures k in NewestTombs(ds) <==> k in TombKeys(ds)
    ensures k in NewestTombs(ds) ==> NewestTombs(ds)[k] in ds
    ensures TombMarks(ds, k) ==
            if k in NewestTombs(ds) then Dead(Instant(NewestTombs(ds)[k].at)) else Unknown
  {
    if ds != [] {
      NewestTombsMark(ds[..|ds| - 1], k);
      assert TombKeys(ds) == TombKeys(ds[..|ds| - 1]) + [ds[|ds| - 1].key];
    }
  }

  lemma PostAppend(vs: seq<Post>, x: Post, k: Key)
    requires PostMarks(vs, k).Unknown? || PostMarks(vs, k) == Live(Instant(x.at)) || x.key != k
    ensures PostMarks(vs + [x], k) == if x.key == k then Live(Instant(x.at)) else PostMarks(vs, k)
  {
    assert (vs + [x])[..|vs|] == vs;
  }

  lemma {:induction false} ListedPostsFrom(order: seq<Key>, m: map<Key, Post>)
    requires forall x :: x in m ==> m[x].key == x
    ensures forall p :: p in Values(order, m) ==> p.key in m && m[p.key] == p
  {
    if order != [] { ListedPostsFrom(order[..|order| - 1], m); }
  }

  lemma {:induction false} ListedPostsMark(order: seq<Key>, m: map<Key, Post>, k: Key)
    requires forall x :: x in m ==> m[x].key == x
    ensures PostMarks(Values(order, m), k) ==
            if k in order && k in m then Live(Instant(m[k].at)) else Unknown
  {
    if order != [] {
      var init, last := order[..|order| - 1], order[|order| - 1];
      ListedPostsMark(init, m, k);
      assert order == init + [last];
      if last in m {
        assert Values(order, m) == Values(init, m) + [m[last]];
        PostAppend(Values(init, m), m[last], k);
      } else {
        assert Values(order, m) == Values(init, m);
      }
    }
  }

  lemma TombAppend(vs: seq<Tomb>, x: Tomb, k: Key)
    requires TombMarks(vs, k).Unknown? || TombMarks(vs, k) == Dead(Instant(x.at)) || x.key != k
    requires x.at.At?
    ensures TombMarks(vs + [x], k) == if x.key == k then Dead(Instant(x.at)) else TombMarks(vs, k)
  {
    assert (vs + [x])[..|vs|] == vs;
  }

  lemma {:induction false} ListedTombsFrom(order: seq<Key>, m: map<Key, Tomb>)
    requires forall x :: x in m ==> m[x].key == x
    ensures forall p :: p in Values(order, m) ==> p.key in m && m[p.key] == p
  {
    if order != [] { ListedTombsFrom(order[..|order| - 1], m); }
  }

  lemma {:induction false} ListedTombsMark(order: seq<Key>, m: map<Key, Tomb>, k: Key)
    requires forall x :: x in m ==> m[x].key == x && m[x].at.At?
    ensures TombMarks(Values(order, m), k) ==
            if k in order && k in m then Dead(Instant(m[k].at)) else Unknown
  {
    if order != [] {
      var init, last := order[..|order| - 1], order[|order| - 1];
      ListedTombsMark(init, m, k);
      assert order == init + [last];
      if last in m {
        assert Values(order, m) == Values(init, m) + [m[last]];
        TombAppend(Values(init, m), m[last], k);
      } else {
        assert Values(order, m) == Values(init, m);
      }
    }
  }

  ghost predicate GoodPosts(ps: map<Key, Post>) {
    forall x :: x in ps ==> ps[x].key == x && ps[x].at.At? && Named(x)
  }

  ghost predicate GoodTombs(ds: map<Key, Tomb>) {
    forall x :: x in ds ==> ds[x].key == x && ds[x].at.At? && Named(x)
  }

  lemma NewestAreGood(h: Payload, ps: map<Key, Post>, ds: map<Key, Tomb>)
    requires DatedPayload(h) && ValidIdentities(h)
    requires ps == NewestPosts(h.posts) && ds == NewestTombs(h.tombs)
    ensures GoodPosts(ps) && GoodTombs(ds)
  {
    forall x | x in ps ensures ps[x].at.At? && Named(x) { NewestPostsMark(h.posts, x); }
    forall x | x in ds ensures ds[x].at.At? && Named(x) { NewestTombsMark(h.tombs, x); }
  }

  lemma ListedAreGood(postOrder: seq<Key>, tombOrder: seq<Key>, ps: map<Key, Post>, ds: map<Key, Tomb>)
    requires GoodPosts(ps) && GoodTombs(ds)
    ensures var r := Payload(Values(postOrder, ps), Values(tombOrder, ds)); DatedPayload(r) && ValidIdentities(r)
  {
    ListedPostsFrom(postOrder, ps);
    ListedTombsFrom(tombOrder, ds);
    var r := Payload(Values(postOrder, ps), Values(tombOrder, ds));
    forall i | 0 <= i < |r.posts| ensures r.posts[i].at.At? && Named(r.posts[i].key) {
      assert r.posts[i] in r.posts;
    }
    forall i | 0 <= i < |r.tombs| ensures r.tombs[i].at.At? && Named(r.tombs[i].key) {
      assert r.tombs[i] in r.tombs;
    }
  }

  lemma ListingKeepsMarks(postOrder: seq<Key>, tombOrder: seq<Key>, ps: map<Key, Post>, ds: map<Key, Tomb>, k: Key)
    requires GoodPosts(ps) && GoodTombs(ds)
    requires k in ps ==> k in postOrder
    requires k in ds ==> k in tombOrder
    ensures var r := Payload(Values(postOrder, ps - LosingPosts(ps, ds)), Values(tombOrder, ds - LosingTombs(ps, ds)));
      && DatedPayload(r) && ValidIdentities(r)
      && (PostMarks(r.posts, k).Unknown? || TombMarks(r.tombs, k).Unknown?)
      && Marks(r, k) == Join(if k in ds then Dead(Instant(ds[k].at)) else Unknown,
                             if k in ps then Live(Instant(ps[k].at)) else Unknown)
  {
    ListedAreGood(postOrder, tombOrder, ps - LosingPosts(ps, ds), ds - LosingTombs(ps, ds));
    ListedPostsMark(postOrder, ps - LosingPosts(ps, ds), k);
    ListedTombsMark(tombOrder, ds - LosingTombs(ps, ds), k);
  }

  /** Reconciling a dated payload keeps every key's mark, and leaves no key on both sides. */
  lemma ReconcileKeepsMarks(h: Payload, k: Key)
    requires DatedPayload(h) && ValidIdentities(h)
    ensures Marks(Reconcile(h), k) == Marks(h, k)
    ensures DatedPayload(Reconcile(h)) && ValidIdentities(Reconcile(h))
    ensures PostMarks(Reconcile(h).posts, k).Unknown? || TombMarks(Reconcile(h).tombs, k).Unknown?
  {
    var ps, ds := NewestPosts(h.posts), NewestTombs(h.tombs);
    NewestAreGood(h, ps, ds);
    NewestPostsMark(h.posts, k);
    NewestTombsMark(h.tombs, k);
    OrderHoldsKeys(h.posts, h.tombs, k);
    ListingKeepsMarks(KeyOrder(PostKeys(h.posts)), KeyOrder(TombKeys(h.tombs)), ps, ds, k);
  }

  lemma {:induction false} PostMarksConcat(xs: seq<Post>, ys: seq<Post>, k: Key)
    ensures PostMarks(xs + ys, k) == Join(PostMarks(xs, k), PostMarks(ys, k))
  {
    if ys == [] {
      assert xs + ys == xs;
    } else {
      assert (xs + ys)[..|xs + ys| - 1] == xs + ys[..|ys| - 1];
      PostMarksConcat(xs, ys[..|ys| - 1], k);
      JoinIsLeastUpperBound(PostMarks(xs, k), PostMarks(ys[..|ys| - 1], k), PostMark(ys[|ys| - 1], k));
    }
  }

  lemma {:induction false} TombMarksConcat(xs: seq<Tomb>, ys: seq<Tomb>, k: Key)
    ensures TombMarks(xs + ys, k) == Join(TombMarks(xs, k), TombMarks(ys, k))
  {
    if ys == [] {
      assert xs + ys == xs;
    } else {
      assert (xs + ys)[..|xs + ys| - 1] == xs + ys[..|ys| - 1];
      TombMarksConcat(xs, ys[..|ys| - 1], k);
      JoinIsLeastUpperBound(TombMarks(xs, k), TombMarks(ys[..|ys| - 1], k), TombMark(ys[|ys| - 1], k));
    }
  }

  function SnapshotMarks(snaps: seq<Payload>, k: Key): Mark {
    if snaps == [] then Unknown
    else Join(SnapshotMarks(snaps[..|snaps| - 1], k), Marks(snaps[|snaps| - 1], k))
  }

  lemma {:induction false} GatherMarks(base: Payload, snaps: seq<Payload>, k: Key)
    ensures Marks(Gather(base, snaps), k) == Join(Marks(base, k), SnapshotMarks(snaps, k))
  {
    if snaps != [] {
      var init, s := snaps[..|snaps| - 1], snaps[|snaps| - 1];
      GatherMarks(base, init, k);
      var g := Gather(base, init);
      PostMarksConcat(g.posts, s.posts, k);
      TombMarksConcat(g.tombs, s.tombs, k);
      JoinIsLeastUpperBound(TombMarks(g.tombs, k), TombMarks(s.tombs, k),
          Join(PostMarks(g.posts, k), PostMarks(s.posts, k)));
      JoinIsLeastUpperBound(TombMarks(s.tombs, k), PostMarks(g.posts, k), PostMarks(s.posts, k));
      JoinIsLeastUpperBound(PostMarks(g.posts, k), TombMarks(s.tombs, k), PostMarks(s.posts, k));
      JoinIsLeastUpperBound(TombMarks(g.tombs, k), PostMarks(g.posts, k), Marks(s, k));
      JoinIsLeastUpperBound(Marks(base, k), SnapshotMarks(init, k), Marks(s, k));
    }
  }

  lemma {:induction false} GatherGood(base: Payload, snaps: seq<Payload>)
    requires DatedPayload(base) && ValidIdentities(base)
    requires forall i :: 0 <= i < |snaps| ==> DatedPayload(snaps[i]) && ValidIdentities(snaps[i])
    ensures DatedPayload(Gather(base, snaps)) && ValidIdentities(Gather(base, snaps))
  {
    if snaps != [] {
      GatherGood(base, snaps[..|snaps| - 1]);
    }
  }

  /** `_pull_unlocked` and `_push_unlocked`: deletions first, then posts. */
  function Absorb(t: Tables, p: Payload, now: nat): Tables {
    ImportPosts(ImportTombs(t, p.tombs), p.posts, now)
  }

  lemma AbsorbIsJoin(t: Tables, p: Payload, now: nat, k: Key)
    requires Consistent(t) && DatedPayload(p) && Named(k)
    ensures Consistent(Absorb(t, p, now))
    ensures Status(Absorb(t, p, now), k) == Join(Status(t, k), Marks(p, k))
  {
    ImportTombsIsJoin(t, p.tombs, k);
    ImportPostsIsJoin(ImportTombs(t, p.tombs), p.posts, now, k);
    JoinIsLeastUpperBound(Status(t, k), TombMarks(p.tombs, k), PostMarks(p.posts, k));
  }

  lemma {:induction false} GatheredRecords(base: Payload, snaps: seq<Payload>, d: Tomb, p: Post)
    ensures d in Gather(base, snaps).tombs <==> TombAnywhere(base, snaps, d)
    ensures p in Gather(base, snaps).posts <==> PostAnywhere(base, snaps, p)
  {
    if snaps != [] {
      var init := snaps[..|snaps| - 1];
      GatheredRecords(base, init, d, p);
      if i :| 0 <= i < |snaps| && d in snaps[i].tombs {
        if i < |snaps| - 1 { assert d in init[i].tombs; }
      }
      if i :| 0 <= i < |snaps| && p in snaps[i].posts {
        if i < |snaps| - 1 { assert p in init[i].posts; }
      }
    }
  }

  /** The record is in the history file or in some snapshot. */
  ghost predicate TombAnywhere(base: Payload, snaps: seq<Payload>, d: Tomb) {
    d in base.tombs || exists i :: 0 <= i < |snaps| && d in snaps[i].tombs
  }

  ghost predicate PostAnywhere(base: Payload, snaps: seq<Payload>, p: Post) {
    p in base.posts || exists i :: 0 <= i < |snaps| && p in snaps[i].posts
  }

  /** Batches carrying exactly the records of a payload carry its marks. */
  lemma BatchesCarryPayload(raw: seq<Batch>, all: Payload, k: Key)
    requires forall d :: d in TombSet(raw) <==> d in all.tombs
    requires forall p :: p in PostSet(raw) <==> p in all.posts
    ensures AllMarks(raw, k) == Marks(all, k)
  {
    var m := Marks(all, k);
    TombMarksBound(all.tombs, k, AllMarks(raw, k));
    PostMarksBound(all.posts, k, AllMarks(raw, k));
    AllMarksAbove(raw, k);
    assert Below(m, AllMarks(raw, k)) by {
      forall i | 0 <= i < |all.tombs| ensures Below(TombMark(all.tombs[i], k), AllMarks(raw, k)) {
        assert all.tombs[i] in TombSet(raw);
      }
      forall i | 0 <= i < |all.posts| ensures Below(PostMark(all.posts[i], k), AllMarks(raw, k)) {
        assert all.posts[i] in PostSet(raw);
      }
    }
    forall d | d in TombSet(raw) ensures Below(TombMark(d, k), m) {
      var i :| 0 <= i < |all.tombs| && all.tombs[i] == d;
      assert Below(TombMark(all.tombs[i], k), TombMarks(all.tombs, k));
    }
    forall p | p in PostSet(raw) ensures Below(PostMark(p, k), m) {
      var i :| 0 <= i < |all.posts| && all.posts[i] == p;
      assert Below(PostMark(all.posts[i], k), PostMarks(all.posts, k));
    }
    AllMarksLeast(raw, k, m);
    BelowAntisymmetric(m, AllMarks(raw, k));
  }

  /** Snapshot reconciliation refines the database: absorbing the merged payload leaves every key as
      importing the raw records of the history file and of every snapshot would, whatever
      the order of those imports and however they are cut into calls. */
  lemma MergeRefinesRawImport(t: Tables, base: Payload, snaps: seq<Payload>, raw: seq<Batch>, now: nat, later: nat,
          k: Key)
    requires Consistent(t) && Named(k) && |snaps| <= MAX_SNAPSHOTS
    requires DatedPayload(base) && ValidIdentities(base)
    requires forall i :: 0 <= i < |snaps| ==> DatedPayload(snaps[i]) && ValidIdentities(snaps[i])
    requires AllDated(raw)
    requires forall d :: d in TombSet(raw) <==> TombAnywhere(base, snaps, d)
    requires forall p :: p in PostSet(raw) <==> PostAnywhere(base, snaps, p)
    ensures MergeHistory(Some(base), Some(snaps)).Ok?
    ensures Status(Absorb(t, MergeHistory(Some(base), Some(snaps)).value, now), k) ==
        Status(ImportBatches(t, raw, later), k)
  {
    var all := Gather(base, snaps);
    GatherGood(base, snaps);
    ReconcileKeepsMarks(all, k);
    AbsorbIsJoin(t, Reconcile(all), now, k);
    forall d ensures d in TombSet(raw) <==> d in all.tombs {
      GatheredRecords(base, snaps, d, Post(k, "", "", Blank));
    }
    forall p ensures p in PostSet(raw) <==> p in all.posts {
      GatheredRecords(base, snaps, Tomb(k, Blank), p);
    }
    BatchesCarryPayload(raw, all, k);
    ImportBatchesIsJoin(t, raw, later, k);
  }
}
