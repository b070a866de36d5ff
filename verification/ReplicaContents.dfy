/**
 Which records a reconciled history consists of, and in which order: of every key the first of its newest records, in
 the order the keys first appear, the canonical file before the snapshots.
 */
module ReplicaContents {
  import opened Wrappers
  import opened Ordering
  import opened History
  import opened Replicas

  // ---------------------------------------------------------------- the newest record of a key

  /** Post `i` is the first of the newest posts for its key. */
  ghost predicate FirstNewestPost(ps: seq<Post>, i: nat) {
    && i < |ps|
    && (forall j :: 0 <= j < |ps| && ps[j].key == ps[i].key ==> TimeKey(ps[j].at) <= TimeKey(ps[i].at))
    && (forall j :: 0 <= j < i && ps[j].key == ps[i].key ==> TimeKey(ps[j].at) < TimeKey(ps[i].at))
  }

  ghost predicate FirstNewestTomb(ds: seq<Tomb>, i: nat) {
    && i < |ds|
    && (forall j :: 0 <= j < |ds| && ds[j].key == ds[i].key ==> TimeKey(ds[j].at) <= TimeKey(ds[i].at))
    && (forall j :: 0 <= j < i && ds[j].key == ds[i].key ==> TimeKey(ds[j].at) < TimeKey(ds[i].at))
  }

  lemma {:induction false} NewestPostIs(ps: seq<Post>, k: Key) returns (i: nat)
    ensures k in NewestPosts(ps) <==> exists j :: 0 <= j < |ps| && ps[j].key == k
    ensures k in NewestPosts(ps) ==> FirstNewestPost(ps, i) && ps[i].key == k && NewestPosts(ps)[k] == ps[i]
  {
    i := 0;
    if ps != [] {
      var init, p := ps[..|ps| - 1], ps[|ps| - 1];
      i := NewestPostIs(init, k);
      assert ps == init + [p];
      if p.key == k && (k !in NewestPosts(init) || TimeKey(p.at) > TimeKey(init[i].at)) { i := |init|; }
    }
  }

  lemma {:induction false} NewestTombIs(ds: seq<Tomb>, k: Key) returns (i: nat)
    ensures k in NewestTombs(ds) <==> exists j :: 0 <= j < |ds| && ds[j].key == k
    ensures k in NewestTombs(ds) ==> FirstNewestTomb(ds, i) && ds[i].key == k && NewestTombs(ds)[k] == ds[i]
  {
    i := 0;
    if ds != [] {
      var init, d := ds[..|ds| - 1], ds[|ds| - 1];
      i := NewestTombIs(init, k);
      assert ds == init + [d];
      if d.key == k && (k !in NewestTombs(init) || TimeKey(d.at) > TimeKey(init[i].at)) { i := |init|; }
    }
  }

  // ---------------------------------------------------------------- the order of a dictionary

  /** The key stands here for the first time. */
  ghost predicate FirstSeen(ks: seq<Key>, i: nat)
    requires i < |ks|
  {
    forall j :: 0 <= j < i ==> ks[j] != ks[i]
  }

  /** `l` has one value per key still in `m`, in the order the keys first appear in `ks`; `os` are those places. */
  ghost predicate Lists<V>(ks: seq<Key>, m: map<Key, V>, os: seq<nat>, l: seq<V>) {
    && Rising(os) && |l| == |os|
    && (forall a :: 0 <= a < |os| ==> os[a] < |ks| && ks[os[a]] in m && l[a] == m[ks[os[a]]])
    && (forall i: nat :: i in os <==> i < |ks| && FirstSeen(ks, i) && ks[i] in m)
  }

  lemma ListsNext<V>(ks: seq<Key>, m: map<Key, V>, os: seq<nat>, l: seq<V>, k: Key)
    requires Lists(ks, m, os, l)
    ensures if k !in ks && k in m then Lists(ks + [k], m, os + [|ks|], l + [m[k]]) else Lists(ks + [k], m, os, l)
  {
    var all := ks + [k];
    forall i: nat | i < |ks| ensures FirstSeen(all, i) <==> FirstSeen(ks, i) {
      assert forall j :: 0 <= j < i ==> all[j] == ks[j];
    }
    assert FirstSeen(all, |ks|) <==> k !in ks by {
      assert forall j :: 0 <= j < |ks| ==> all[j] == ks[j];
    }
  }

  lemma ValuesNext<V>(ks: seq<Key>, m: map<Key, V>, k: Key)
    ensures Values(KeyOrder(ks + [k]), m) ==
      Values(KeyOrder(ks), m) + if k !in ks && k in m then [m[k]] else []
  {
    assert (ks + [k])[..|ks|] == ks;
    assert (KeyOrder(ks) + [k])[..|KeyOrder(ks)|] == KeyOrder(ks);
  }

  lemma ListedNext<V>(ks: seq<Key>, m: map<Key, V>, k: Key, os: seq<nat>) returns (more: seq<nat>)
    requires Lists(ks, m, os, Values(KeyOrder(ks), m))
    ensures Lists(ks + [k], m, more, Values(KeyOrder(ks + [k]), m))
  {
    var l := Values(KeyOrder(ks), m);
    ValuesNext(ks, m, k);
    ListsNext(ks, m, os, l, k);
    more := if k !in ks && k in m then os + [|ks|] else os;
    assert l + [] == l;
  }

  /** The values of a dictionary filled with these keys, less those removed, come in that order. */
  lemma {:induction false} ListedAre<V>(ks: seq<Key>, m: map<Key, V>) returns (os: seq<nat>)
    ensures Lists(ks, m, os, Values(KeyOrder(ks), m))
  {
    os := [];
    if ks != [] {
      os := ListedAre(ks[..|ks| - 1], m);
      assert ks[..|ks| - 1] + [ks[|ks| - 1]] == ks;
      os := ListedNext(ks[..|ks| - 1], m, ks[|ks| - 1], os);
    }
  }

  // ---------------------------------------------------------------- the reconciled history

  /** The post is kept: it is the first newest for its key, and newer than every deletion of the key. */
  ghost predicate PostStays(h: Payload, i: nat) {
    FirstNewestPost(h.posts, i) &&
    forall j :: 0 <= j < |h.tombs| && h.tombs[j].key == h.posts[i].key ==>
      TimeKey(h.tombs[j].at) < TimeKey(h.posts[i].at)
  }

  /** The deletion is kept: it is the first newest for its key, and no post for the key is newer. */
  ghost predicate TombStays(h: Payload, i: nat) {
    FirstNewestTomb(h.tombs, i) &&
    forall j :: 0 <= j < |h.posts| && h.posts[j].key == h.tombs[i].key ==>
      TimeKey(h.posts[j].at) <= TimeKey(h.tombs[i].at)
  }

  ghost predicate KeyPosted(h: Payload, k: Key) {
    exists i: nat :: PostStays(h, i) && h.posts[i].key == k
  }

  ghost predicate KeyBuried(h: Payload, k: Key) {
    exists i: nat :: TombStays(h, i) && h.tombs[i].key == k
  }

  /** The record kept for the key. */
  ghost predicate PostFor(h: Payload, k: Key, p: Post) {
    exists i: nat :: PostStays(h, i) && h.posts[i].key == k && p == h.posts[i]
  }

  ghost predicate TombFor(h: Payload, k: Key, d: Tomb) {
    exists i: nat :: TombStays(h, i) && h.tombs[i].key == k && d == h.tombs[i]
  }

  lemma SameNewestPost(ps: seq<Post>, i: nat, j: nat)
    requires FirstNewestPost(ps, i) && FirstNewestPost(ps, j) && ps[i].key == ps[j].key
    ensures i == j
  {
  }

  lemma SameNewestTomb(ds: seq<Tomb>, i: nat, j: nat)
    requires FirstNewestTomb(ds, i) && FirstNewestTomb(ds, j) && ds[i].key == ds[j].key
    ensures i == j
  {
  }

  /** Which keys are left on each side once the losers are dropped. */
  lemma LeftPost(h: Payload, k: Key)
    ensures var left := NewestPosts(h.posts) - LosingPosts(NewestPosts(h.posts), NewestTombs(h.tombs));
      (k in left <==> KeyPosted(h, k)) && (k in left ==> PostFor(h, k, left[k]))
  {
    var i := NewestPostIs(h.posts, k);
    var j := NewestTombIs(h.tombs, k);
    if m: nat :| PostStays(h, m) && h.posts[m].key == k { SameNewestPost(h.posts, i, m); }
  }

  lemma LeftTomb(h: Payload, k: Key)
    ensures var left := NewestTombs(h.tombs) - LosingTombs(NewestPosts(h.posts), NewestTombs(h.tombs));
      (k in left <==> KeyBuried(h, k)) && (k in left ==> TombFor(h, k, left[k]))
  {
    var i := NewestPostIs(h.posts, k);
    var j := NewestTombIs(h.tombs, k);
    if m: nat :| TombStays(h, m) && h.tombs[m].key == k { SameNewestTomb(h.tombs, j, m); }
  }

  /** The posts of a reconciled history: for every key whose newest post beats its deletions, the first newest one, in
      the order in which the keys first appear among the posts. */
  lemma ReconciledPosts(h: Payload) returns (os: seq<nat>)
    ensures var out := Reconcile(h).posts;
      && Rising(os) && |out| == |os|
      && (forall i: nat :: i in os <==>
            i < |h.posts| && FirstSeen(PostKeys(h.posts), i) && KeyPosted(h, h.posts[i].key))
      && (forall a :: 0 <= a < |os| ==> os[a] < |h.posts| && PostFor(h, h.posts[os[a]].key, out[a]))
  {
    var ps, ds := NewestPosts(h.posts), NewestTombs(h.tombs);
    var left := ps - LosingPosts(ps, ds);
    os := ListedAre(PostKeys(h.posts), left);
    forall k ensures (k in left <==> KeyPosted(h, k)) && (k in left ==> PostFor(h, k, left[k])) { LeftPost(h, k); }
  }

  /** The deletions of a reconciled history, likewise. */
  lemma ReconciledTombs(h: Payload) returns (os: seq<nat>)
    ensures var out := Reconcile(h).tombs;
      && Rising(os) && |out| == |os|
      && (forall i: nat :: i in os <==>
            i < |h.tombs| && FirstSeen(TombKeys(h.tombs), i) && KeyBuried(h, h.tombs[i].key))
      && (forall a :: 0 <= a < |os| ==> os[a] < |h.tombs| && TombFor(h, h.tombs[os[a]].key, out[a]))
  {
    var ps, ds := NewestPosts(h.posts), NewestTombs(h.tombs);
    var left := ds - LosingTombs(ps, ds);
    os := ListedAre(TombKeys(h.tombs), left);
    forall k ensures (k in left <==> KeyBuried(h, k)) && (k in left ==> TombFor(h, k, left[k])) { LeftTomb(h, k); }
  }

  // ---------------------------------------------------------------- what goes in

  /** The files are put one after the other: the canonical one, then the snapshots in order. */
  lemma {:induction false} GatheredInOrder(base: Payload, snaps: seq<Payload>, n: nat)
    requires n < |snaps|
    ensures base.posts <= Gather(base, snaps[..n]).posts && base.tombs <= Gather(base, snaps[..n]).tombs
    ensures Gather(base, snaps[..n]).posts + snaps[n].posts <= Gather(base, snaps).posts
    ensures Gather(base, snaps[..n]).tombs + snaps[n].tombs <= Gather(base, snaps).tombs
    decreases |snaps|
  {
    var init := snaps[..|snaps| - 1];
    if n < |init| {
      GatheredInOrder(base, init, n);
      assert init[..n] == snaps[..n];
    } else if n > 0 {
      GatheredInOrder(base, init, n - 1);
    }
  }

  lemma {:induction false} GatherValid(base: Payload, snaps: seq<Payload>)
    ensures ValidIdentities(Gather(base, snaps)) <==>
      ValidIdentities(base) && forall n :: 0 <= n < |snaps| ==> ValidIdentities(snaps[n])
  {
    if snaps != [] {
      var init, s := snaps[..|snaps| - 1], snaps[|snaps| - 1];
      GatherValid(base, init);
      ConcatValid(Gather(base, init), s);
    }
  }

  lemma ConcatValid(p: Payload, q: Payload)
    ensures ValidIdentities(Payload(p.posts + q.posts, p.tombs + q.tombs)) <==> ValidIdentities(p) && ValidIdentities(q)
  {
    var r := Payload(p.posts + q.posts, p.tombs + q.tombs);
    if ValidIdentities(r) {
      forall i | 0 <= i < |p.posts| ensures Named(p.posts[i].key) { assert r.posts[i] == p.posts[i]; }
      forall i | 0 <= i < |q.posts| ensures Named(q.posts[i].key) { assert r.posts[|p.posts| + i] == q.posts[i]; }
      forall i | 0 <= i < |p.tombs| ensures Named(p.tombs[i].key) { assert r.tombs[i] == p.tombs[i]; }
      forall i | 0 <= i < |q.tombs| ensures Named(q.tombs[i].key) { assert r.tombs[|p.tombs| + i] == q.tombs[i]; }
    }
  }

  /** When a merge is refused and why; without a snapshot directory the history file passes as it is. */
  lemma MergeOutcome(canon: Option<Payload>, snaps: Option<seq<Payload>>)
    ensures var r, base := MergeHistory(canon, snaps), if canon.Some? then canon.value else Payload([], []);
      if snaps.None? then r == Ok(base)
      else
        && (r == TooManySnapshots <==> |snaps.value| > MAX_SNAPSHOTS)
        && (r.Ok? <==> (|snaps.value| <= MAX_SNAPSHOTS && ValidIdentities(base) &&
                        forall n :: 0 <= n < |snaps.value| ==> ValidIdentities(snaps.value[n])))
        && (r.Ok? ==> r.value == Reconcile(Gather(base, snaps.value)))
  {
    if snaps.Some? { GatherValid(if canon.Some? then canon.value else Payload([], []), snaps.value); }
  }
}
