/**
 Reconciling is a fixpoint: run again on the configuration it wrote and the device list it
 shared, `reconcile_config_devices` returns the same list and changes nothing.
 */
module RegistryFixpoint {
  import opened Wrappers
  import opened Ordering
  import opened UnionFind
  import opened DeviceRegistry
  import opened RegistryProofs

  // ---------------------------------------------------------------- lists

  predicate Distinct(xs: seq<string>) {
    forall i, j :: 0 <= i < j < |xs| ==> xs[i] != xs[j]
  }

  lemma {:induction false} TextListDistinct(xs: seq<string>)
    ensures Distinct(TextList(xs))
  {
    if xs != [] { TextListDistinct(xs[..|xs| - 1]); }
  }

  lemma {:induction false} TextListFixpoint(xs: seq<string>)
    requires Distinct(xs) && "" !in xs
    ensures TextList(xs) == xs
  {
    if xs != [] {
      var init := xs[..|xs| - 1];
      TextListFixpoint(init);
      assert xs == init + [xs[|xs| - 1]];
      assert xs[|xs| - 1] in xs;
    }
  }

  lemma SortedDistinct(xs: seq<string>)
    requires Sorted(xs)
    ensures Distinct(xs)
  {
    forall i, j | 0 <= i < j < |xs| ensures xs[i] != xs[j] { LessTotal(xs[i], xs[j]); }
  }

  lemma {:induction false} WithoutAbsent(xs: seq<string>, x: string)
    requires x !in xs
    ensures Without(xs, x) == xs
  {
    if xs != [] {
      assert xs == xs[..|xs| - 1] + [xs[|xs| - 1]];
      assert xs[|xs| - 1] in xs;
      WithoutAbsent(xs[..|xs| - 1], x);
    }
  }

  // ---------------------------------------------------------------- what an entry holds

  lemma {:induction false} IdsAmongAllIds(g: seq<Node>, x: string)
    ensures x in Ids(g) ==> x in AllIds(g) && x != ""
  {
    if g != [] { IdsAmongAllIds(g[..|g| - 1], x); }
  }

  lemma {:induction false} HostsDistinct(g: seq<Node>, local: bool)
    ensures Distinct(HostsOf(g, local)) && "" !in HostsOf(g, local)
  {
    if g != [] {
      HostsDistinct(g[..|g| - 1], local);
      TextListDistinct(HostsOf(g[..|g| - 1], local) + g[|g| - 1].hosts);
    }
  }

  /** An entry as the export writes it. */
  ghost predicate WellFormed(e: Entry) {
    && e.id != "" && e.single == ""
    && Distinct(e.hosts) && "" !in e.hosts && |e.hosts| <= MAX_HOSTS
    && Sorted(e.aliases) && "" !in e.aliases && e.id !in e.aliases
  }

  lemma CanonicalIsId(g: seq<Node>)
    requires Ids(g) != []
    ensures Canonical(g) in Ids(g) && Canonical(g) in AllIds(g) && Canonical(g) != ""
  {
    SortUniqueSorted(Ids(g));
    assert Ids(g)[0] in SortUnique(Ids(g));
    assert Canonical(g) in SortUnique(Ids(g));
    IdsAmongAllIds(g, Canonical(g));
  }

  lemma AliasesShape(g: seq<Node>)
    requires Ids(g) != []
    ensures Sorted(GroupAliases(g))
    ensures forall a :: a in GroupAliases(g) <==> a in AllIds(g) && a != "" && a != Canonical(g)
  {
    SortUniqueSorted(Without(Without(AllIds(g), ""), Canonical(g)));
  }

  lemma EntryShape(g: seq<Node>)
    requires Ids(g) != []
    ensures WellFormed(GroupEntry(g)) && GroupEntry(g).id in AllIds(g)
  {
    CanonicalIsId(g);
    AliasesShape(g);
    HostsDistinct(g, true);
    HostsDistinct(g, false);
  }

  lemma EntryMentions(g: seq<Node>)
    requires Ids(g) != []
    ensures forall a :: a in GroupEntry(g).aliases ==> a in AllIds(g)
    ensures forall h :: h in GroupEntry(g).hosts ==> h in HostsOf(g, true) || h in HostsOf(g, false)
  {
    AliasesShape(g);
  }

  /** A well-formed entry is read back as it was written. */
  lemma ReadBack(e: Entry)
    requires WellFormed(e)
    ensures Usable(e) && RemoteRecord(e) == Node(e.id, e.hosts, e.aliases, e.name, NoSlot, e.primary)
  {
    TextListFixpoint(e.hosts);
    assert (e.hosts + [e.single])[..|e.hosts + [e.single]| - 1] == e.hosts;
    SortedDistinct(e.aliases);
    TextListFixpoint(e.aliases);
    WithoutAbsent(e.aliases, e.id);
  }

  lemma {:induction false} ReadBackAll(es: seq<Entry>)
    requires forall k :: 0 <= k < |es| ==> WellFormed(es[k])
    ensures |RemoteRecords(es)| == |es|
    ensures forall k :: 0 <= k < |es| ==> RemoteRecords(es)[k] == RemoteRecord(es[k])
  {
    if es != [] {
      ReadBackAll(es[..|es| - 1]);
      ReadBack(es[|es| - 1]);
    }
  }

  // ---------------------------------------------------------------- groups

  lemma GroupStep(nodes: seq<Node>, c: seq<nat>, r: nat, n: nat)
    requires |c| == |nodes| && 0 < n <= |nodes|
    ensures var g, full := Group(nodes, c, r, n - 1), Group(nodes, c, r, n);
      if c[n - 1] == r then full != [] && full[..|full| - 1] == g && full[|full| - 1] == nodes[n - 1]
      else full == g
  {
  }

  lemma {:induction false} GroupIdentity(nodes: seq<Node>, c: seq<nat>, r: nat, n: nat, x: string)
    requires |c| == |nodes| && n <= |nodes|
    ensures x in AllIds(Group(nodes, c, r, n)) <==> exists i :: 0 <= i < n && c[i] == r && x in Identities(nodes[i])
  {
    if n > 0 {
      GroupIdentity(nodes, c, r, n - 1, x);
      GroupStep(nodes, c, r, n);
    }
  }

  lemma {:induction false} GroupHost(nodes: seq<Node>, c: seq<nat>, r: nat, n: nat, local: bool, h: string)
    requires |c| == |nodes| && n <= |nodes| && h in HostsOf(Group(nodes, c, r, n), local)
    ensures exists i :: 0 <= i < n && c[i] == r && h in nodes[i].hosts && IsLocal(nodes[i]) == local
  {
    if n > 0 {
      GroupStep(nodes, c, r, n);
      if h in HostsOf(Group(nodes, c, r, n - 1), local) {
        GroupHost(nodes, c, r, n - 1, local, h);
      } else {
        assert c[n - 1] == r && h in nodes[n - 1].hosts;
      }
    }
  }

  lemma {:induction false} GroupId(nodes: seq<Node>, c: seq<nat>, r: nat, n: nat, i: nat)
    requires |c| == |nodes| && i < n <= |nodes| && c[i] == r && nodes[i].id != ""
    ensures nodes[i].id in Ids(Group(nodes, c, r, n))
  {
    GroupStep(nodes, c, r, n);
    if i < n - 1 { GroupId(nodes, c, r, n - 1, i); }
  }

  lemma {:induction false} GroupPrimary(nodes: seq<Node>, c: seq<nat>, r: nat, n: nat)
    requires |c| == |nodes| && n <= |nodes|
    ensures AnyPrimary(Group(nodes, c, r, n)) <==> exists i :: 0 <= i < n && c[i] == r && nodes[i].primary
  {
    if n > 0 {
      GroupPrimary(nodes, c, r, n - 1);
      var g, full := Group(nodes, c, r, n - 1), Group(nodes, c, r, n);
      if c[n - 1] == r {
        assert full[|g|] == nodes[n - 1];
        if AnyPrimary(g) { var k :| 0 <= k < |g| && g[k].primary; assert full[k].primary; }
        if AnyPrimary(full) { var k :| 0 <= k < |full| && full[k].primary; if k < |g| { assert g[k].primary; } }
      } else {
        assert full == g;
      }
    }
  }

  /** Records that share a host or an identity end up in one cluster. */
  lemma LinkedTogether(nodes: seq<Node>, i: nat, j: nat)
    requires i < |nodes| && j < |nodes| && Linked(nodes[i], nodes[j])
    ensures Clusters(nodes)[i] == Clusters(nodes)[j]
  {
    LinkedConnected(nodes, i, j);
    ClosureIsConnected(nodes, i, j);
    PrimaryPassSafe(nodes, Closure(nodes));
  }

  /** Clusters have no identity in common. */
  lemma IdentityNamesCluster(nodes: seq<Node>, r: nat, s: nat, x: string)
    requires x != ""
    requires x in AllIds(Group(nodes, Clusters(nodes), r, |nodes|)) &&
      x in AllIds(Group(nodes, Clusters(nodes), s, |nodes|))
    ensures r == s
  {
    var c := Clusters(nodes);
    GroupIdentity(nodes, c, r, |nodes|, x);
    GroupIdentity(nodes, c, s, |nodes|, x);
    var i :| 0 <= i < |nodes| && c[i] == r && x in Identities(nodes[i]);
    var j :| 0 <= j < |nodes| && c[j] == s && x in Identities(nodes[j]);
    LinkedTogether(nodes, i, j);
  }

  // ---------------------------------------------------------------- the export is a sorted set of entries

  /** `v[i]` is what the cluster of record `i` exports. */
  ghost predicate ViewAt(nodes: seq<Node>, c: seq<nat>, v: View, i: nat)
    requires |c| == |nodes| == |v| && i < |nodes|
  {
    v[i] == GroupView(ClusterOf(nodes, c, i))
  }

  ghost predicate Faithful(nodes: seq<Node>, c: seq<nat>, v: View) {
    |c| == |nodes| == |v| && forall i {:trigger ViewAt(nodes, c, v, i)} :: 0 <= i < |nodes| ==> ViewAt(nodes, c, v, i)
  }

  /** Records of one cluster share its export. */
  ghost predicate PerCluster(c: seq<nat>, v: View) {
    |c| == |v| && forall i, j :: 0 <= i < |c| && 0 <= j < |c| && c[i] == c[j] ==> v[i] == v[j]
  }

  ghost predicate AllWellFormed(v: View) {
    forall i :: 0 <= i < |v| && v[i].Some? ==> WellFormed(v[i].value)
  }

  lemma EntriesPerFaithful(nodes: seq<Node>, c: seq<nat>)
    requires |c| == |nodes|
    ensures Faithful(nodes, c, EntriesPer(nodes, c))
  {
    forall i | 0 <= i < |nodes| ensures ViewAt(nodes, c, EntriesPer(nodes, c), i) {}
  }

  lemma FaithfulView(nodes: seq<Node>, c: seq<nat>, v: View)
    requires Faithful(nodes, c, v)
    ensures PerCluster(c, v) && AllWellFormed(v)
  {
    forall i, j | 0 <= i < |c| && 0 <= j < |c| && c[i] == c[j] ensures v[i] == v[j] {
      assert ViewAt(nodes, c, v, i) && ViewAt(nodes, c, v, j);
    }
    forall i | 0 <= i < |v| && v[i].Some? ensures WellFormed(v[i].value) {
      assert ViewAt(nodes, c, v, i);
      EntryShape(ClusterOf(nodes, c, i));
    }
  }

  lemma {:induction false} HeadsComplete(c: seq<nat>, v: View, n: nat, i: nat)
    requires PerCluster(c, v) && i < n <= |c| && v[i].Some?
    ensures exists h :: h in Heads(c, v, n) && c[h] == c[i]
  {
    if i < n - 1 {
      HeadsComplete(c, v, n - 1, i);
      var h :| h in Heads(c, v, n - 1) && c[h] == c[i];
      assert h in Heads(c, v, n);
    } else if !IsFirst(c, i) {
      var j :| 0 <= j < i && c[j] == c[i];
      HeadsComplete(c, v, n - 1, j);
      var h :| h in Heads(c, v, n - 1) && c[h] == c[j];
      assert h in Heads(c, v, n);
    } else {
      assert i in Heads(c, v, n);
    }
  }

  lemma {:induction false} HeadsApart(c: seq<nat>, v: View, n: nat)
    requires |c| == |v| && n <= |c|
    ensures forall j, k :: 0 <= j < k < |Heads(c, v, n)| ==> c[Heads(c, v, n)[j]] != c[Heads(c, v, n)[k]]
  {
    if n > 0 { HeadsApart(c, v, n - 1); }
  }

  /** The export holds exactly one entry per cluster that has an id. */
  lemma EntryMembers(c: seq<nat>, v: View, e: Entry)
    requires PerCluster(c, v)
    ensures e in Listed(c, v) <==> Some(e) in v
  {
    var hs := Heads(c, v, |c|);
    if Some(e) in v {
      var i :| 0 <= i < |v| && v[i] == Some(e);
      HeadsComplete(c, v, |c|, i);
      var h :| h in hs && c[h] == c[i];
      var k :| 0 <= k < |hs| && hs[k] == h;
      assert Listed(c, v)[k] == e;
    }
    if e in Listed(c, v) {
      var k :| 0 <= k < |hs| && Listed(c, v)[k] == e;
      assert v[hs[k]] == Some(e);
    }
  }

  ghost predicate DistinctIds(es: seq<Entry>) {
    forall i, j :: 0 <= i < j < |es| ==> es[i].id != es[j].id
  }

  /** An entry's id names its cluster. */
  lemma EntryNamesCluster(nodes: seq<Node>, v: View, i: nat, j: nat)
    requires Faithful(nodes, Clusters(nodes), v) && i < |nodes| && j < |nodes|
    requires v[i].Some? && v[j].Some? && v[i].value.id == v[j].value.id
    ensures Clusters(nodes)[i] == Clusters(nodes)[j]
  {
    var c := Clusters(nodes);
    assert ViewAt(nodes, c, v, i) && ViewAt(nodes, c, v, j);
    EntryShape(ClusterOf(nodes, c, i));
    EntryShape(ClusterOf(nodes, c, j));
    IdentityNamesCluster(nodes, c[i], c[j], v[i].value.id);
  }

  lemma EntriesDistinct(nodes: seq<Node>, v: View)
    requires Faithful(nodes, Clusters(nodes), v)
    ensures DistinctIds(Listed(Clusters(nodes), v))
  {
    var c := Clusters(nodes);
    var es, hs := Listed(c, v), Heads(c, v, |c|);
    HeadsApart(c, v, |c|);
    forall j, k | 0 <= j < k < |es| ensures es[j].id != es[k].id {
      if es[j].id == es[k].id { EntryNamesCluster(nodes, v, hs[j], hs[k]); }
    }
  }

  lemma EntryLessTotal(a: Entry, b: Entry)
    ensures a.id != b.id ==> EntryLess(a, b) || EntryLess(b, a)
    ensures !(EntryLess(a, b) && EntryLess(b, a)) && !EntryLess(a, a)
  {
    LessTotal(SortHost(a), SortHost(b));
    LessTotal(a.id, b.id);
    LessTotal(SortHost(a), SortHost(a));
    LessTotal(a.id, a.id);
  }

  lemma EntryLessTransitive(a: Entry, b: Entry, c: Entry)
    requires EntryLess(a, b) && EntryLess(b, c)
    ensures EntryLess(a, c)
  {
    if Less(SortHost(a), SortHost(b)) && Less(SortHost(b), SortHost(c)) {
      LessTransitive(SortHost(a), SortHost(b), SortHost(c));
    } else if Less(a.id, b.id) && Less(b.id, c.id) {
      LessTransitive(a.id, b.id, c.id);
    }
  }

  ghost predicate EntriesSorted(s: seq<Entry>) {
    forall i, j :: 0 <= i < j < |s| ==> EntryLess(s[i], s[j])
  }

  lemma {:induction false} InsertEntrySorted(e: Entry, s: seq<Entry>)
    requires EntriesSorted(s) && forall k :: 0 <= k < |s| ==> s[k].id != e.id
    ensures EntriesSorted(InsertEntry(e, s))
    ensures forall x :: x in InsertEntry(e, s) <==> x == e || x in s
  {
    if s != [] {
      EntryLessTotal(s[0], e);
      assert s == [s[0]] + s[1..];
      if EntryLess(s[0], e) {
        InsertEntrySorted(e, s[1..]);
        var t := InsertEntry(e, s[1..]);
        forall j | 0 <= j < |t| ensures EntryLess(s[0], t[j]) { assert t[j] in t; }
      } else {
        forall j | 0 < j < |s| ensures EntryLess(e, s[j]) { EntryLessTransitive(e, s[0], s[j]); }
      }
    }
  }

  lemma {:induction false} SortEntriesSorted(es: seq<Entry>)
    requires DistinctIds(es)
    ensures EntriesSorted(SortEntries(es))
    ensures forall x :: x in SortEntries(es) <==> x in es
  {
    if es != [] {
      var init, e := es[..|es| - 1], es[|es| - 1];
      SortEntriesSorted(init);
      var s := SortEntries(init);
      forall k | 0 <= k < |s| ensures s[k].id != e.id {
        assert s[k] in init;
        var i :| 0 <= i < |init| && init[i] == s[k];
        assert es[i].id != es[|es| - 1].id;
      }
      InsertEntrySorted(e, s);
      assert es == init + [e];
    }
  }

  lemma SameMembersEmpty(s: seq<Entry>, t: seq<Entry>)
    requires forall x :: x in s <==> x in t
    ensures s == [] <==> t == []
  {
    if t != [] { assert t[0] in t && t[0] in s; }
    if s != [] { assert s[0] in s && s[0] in t; }
  }

  lemma EntriesTail(s: seq<Entry>, x: Entry)
    requires EntriesSorted(s) && s != []
    ensures x in s[1..] <==> x in s && x != s[0]
  {
    if x in s[1..] {
      var i :| 0 <= i < |s[1..]| && s[1..][i] == x;
      EntryLessTotal(s[0], s[i + 1]);
    }
    assert s == [s[0]] + s[1..];
  }

  lemma {:induction false} SortedEntriesDetermined(s: seq<Entry>, t: seq<Entry>)
    requires EntriesSorted(s) && EntriesSorted(t) && forall x :: x in s <==> x in t
    ensures s == t
  {
    SameMembersEmpty(s, t);
    if s != [] {
      assert s[0] in s && t[0] in t;
      var i :| 0 <= i < |t| && t[i] == s[0];
      var j :| 0 <= j < |s| && s[j] == t[0];
      EntryLessTotal(s[0], t[0]);
      assert s[0] == t[0];
      forall x ensures x in s[1..] <==> x in t[1..] {
        EntriesTail(s, x);
        EntriesTail(t, x);
      }
      SortedEntriesDetermined(s[1..], t[1..]);
      assert s == [s[0]] + s[1..] && t == [t[0]] + t[1..];
    }
  }
}
