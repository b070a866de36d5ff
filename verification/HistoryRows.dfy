/**
 What the rows of the history say besides their keys and times, and which key stands for a reader that is pending.
 */
module HistoryRows {
  import opened Lww
  import opened Ordering
  import opened History

  // ---------------------------------------------------------------- rows of local deliveries

  /** The last entry of the list for `k` is entry `i`. */
  ghost predicate LastFor(es: seq<MarkEntry>, k: Key, i: nat) {
    i < |es| && es[i].key == k && forall j :: i < j < |es| ==> es[j].key != k
  }

  /** A local delivery writes the names of the last entry for a key and the time given. */
  lemma {:induction false} MarkedRow(t: Tables, es: seq<MarkEntry>, now: nat, k: Key, i: nat)
    requires Named(k) && LastFor(es, k, i)
    ensures k in MarkAll(t, es, now).live && MarkAll(t, es, now).live[k] == Row(es[i].site, es[i].title, At(now))
  {
    var init := es[..|es| - 1];
    if i < |init| {
      assert LastFor(init, k, i);
      assert es[|es| - 1].key != k;
      MarkedRow(t, init, now, k, i);
    }
  }

  /** All other rows stay as they are. */
  lemma {:induction false} UnmarkedRow(t: Tables, es: seq<MarkEntry>, now: nat, k: Key)
    requires !Named(k) || (forall i :: 0 <= i < |es| ==> es[i].key != k)
    ensures k in MarkAll(t, es, now).live <==> k in t.live
    ensures k in t.live ==> MarkAll(t, es, now).live[k] == t.live[k]
  {
    if es != [] { UnmarkedRow(t, es[..|es| - 1], now, k); }
  }

  // ---------------------------------------------------------------- names after an import

  /** A row written by an import takes the post's names where it has any and keeps the old ones where it has none. */
  lemma ImportedNames(t: Tables, p: Post, now: nat)
    requires ImportPost(t, p, now).live != t.live
    ensures var r, k := ImportPost(t, p, now).live, p.key;
      && k in r
      && r[k].site == (if p.site != "" then p.site else if k in t.live then t.live[k].site else "")
      && r[k].title == (if p.title != "" then p.title else if k in t.live then t.live[k].title else "")
      && forall x :: x != k ==> (x in r <==> x in t.live) && (x in r ==> r[x] == t.live[x])
  {
  }

  /** Everything known about the key is older than the post. */
  predicate Older(t: Tables, p: Post) {
    p.at.At? &&
    (p.key in t.live ==> TimeKey(t.live[p.key].at) < p.at.key) && (p.key in t.dead ==> t.dead[p.key] < p.at.key)
  }

  /** Post `i` is newer than every other one for its key and than all the database holds about it. */
  ghost predicate Newest(t: Tables, ps: seq<Post>, i: nat) {
    && i < |ps| && Named(ps[i].key) && ps[i].at.At? && Older(t, ps[i])
    && (forall j :: 0 <= j < |ps| && j != i && ps[j].key == ps[i].key ==> TimeKey(ps[j].at) < ps[i].at.key)
  }

  lemma {:induction false} OlderBefore(t: Tables, ps: seq<Post>, now: nat, p: Post)
    requires Older(t, p) && Dated(ps)
    requires forall j :: 0 <= j < |ps| && ps[j].key == p.key ==> TimeKey(ps[j].at) < p.at.key
    ensures Older(ImportPosts(t, ps, now), p)
    decreases |ps|
  {
    if ps != [] { OlderBefore(t, ps[..|ps| - 1], now, p); }
  }

  /** Whatever else a list of dated posts holds and in whatever order, the newest post for a key gives its row the time
      and every name it has itself. */
  lemma {:induction false} NewestNames(t: Tables, ps: seq<Post>, now: nat, i: nat)
    requires Newest(t, ps, i) && Dated(ps)
    ensures var r, p := ImportPosts(t, ps, now).live, ps[i];
      && p.key in r && r[p.key].at == p.at
      && (p.site != "" ==> r[p.key].site == p.site) && (p.title != "" ==> r[p.key].title == p.title)
    decreases |ps|
  {
    var init, last := ps[..|ps| - 1], ps[|ps| - 1];
    if i < |init| {
      assert Newest(t, init, i);
      NewestNames(t, init, now, i);
    } else {
      OlderBefore(t, init, now, last);
    }
  }

  // ---------------------------------------------------------------- pending readers

  /** The reader with these keys has not got the url; in global mode no reader has until one has. */
  predicate Lacks(live: map<Key, Row>, url: string, keys: seq<string>, mode: Mode) {
    if mode == GlobalUrl then !SyncedUrl(live, url) else !SyncedForAny(live, url, keys)
  }

  /** `os` are the positions, in order, of the readers that lack the url. */
  ghost predicate Lacking(live: map<Key, Row>, url: string, groups: seq<seq<string>>, mode: Mode, os: seq<nat>) {
    && Rising(os)
    && (forall i: nat :: i in os <==> i < |groups| && url != "" && Lacks(live, url, groups[i], mode))
  }

  /** The pending readers are exactly those that lack the url, in order, each under the first of its keys. */
  lemma {:induction false} PendingAre(live: map<Key, Row>, url: string, groups: seq<seq<string>>, mode: Mode)
    returns (os: seq<nat>)
    requires forall i :: 0 <= i < |groups| ==> groups[i] != []
    ensures Lacking(live, url, groups, mode, os)
    ensures var hs := PendingHeads(live, url, groups, mode);
      |hs| == |os| && forall a :: 0 <= a < |os| ==> os[a] < |groups| && hs[a] == groups[os[a]][0]
  {
    os := [];
    if groups != [] {
      var init := groups[..|groups| - 1];
      os := PendingAre(live, url, init, mode);
      if url != "" && Lacks(live, url, groups[|groups| - 1], mode) { os := os + [|init|]; }
    }
  }

  /** Which readers are asked about: the alias groups that are not empty, in order, when any groups are given, and
      otherwise every non-blank target, in order, under itself alone.  `os` are their positions. */
  lemma GroupsAre(targets: seq<string>, aliases: seq<seq<string>>) returns (os: seq<nat>)
    ensures var gs := KeyGroups(targets, aliases);
      && Rising(os) && |gs| == |os|
      && if aliases != [] then
           && (forall i: nat :: i in os <==> i < |aliases| && aliases[i] != [])
           && (forall a :: 0 <= a < |os| ==> os[a] < |aliases| && gs[a] == aliases[os[a]])
         else
           && (forall i: nat :: i in os <==> i < |targets| && targets[i] != "")
           && (forall a :: 0 <= a < |os| ==> os[a] < |targets| && gs[a] == [targets[os[a]]])
  {
    if aliases != [] { os := NonEmptyAre(aliases); } else { os := SingletonsAre(targets); }
  }

  lemma {:induction false} NonEmptyAre(gs: seq<seq<string>>) returns (os: seq<nat>)
    ensures Rising(os) && |NonEmpty(gs)| == |os| && forall i: nat :: i in os <==> i < |gs| && gs[i] != []
    ensures forall a :: 0 <= a < |os| ==> os[a] < |gs| && NonEmpty(gs)[a] == gs[os[a]]
  {
    os := [];
    if gs != [] {
      os := NonEmptyAre(gs[..|gs| - 1]);
      if gs[|gs| - 1] != [] { os := os + [|gs| - 1]; }
    }
  }

  lemma {:induction false} SingletonsAre(ts: seq<string>) returns (os: seq<nat>)
    ensures Rising(os) && |Singletons(ts)| == |os| && forall i: nat :: i in os <==> i < |ts| && ts[i] != ""
    ensures forall a :: 0 <= a < |os| ==> os[a] < |ts| && Singletons(ts)[a] == [ts[os[a]]]
  {
    os := [];
    if ts != [] {
      os := SingletonsAre(ts[..|ts| - 1]);
      if ts[|ts| - 1] != "" { os := os + [|ts| - 1]; }
    }
  }
}
