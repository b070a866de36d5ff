/**
 What an exported device says about its cluster, in terms of the records alone: its id, its aliases, whose
 addresses it lists and in which order, its name and its flag.
 */
module RegistryExport {
  import opened Wrappers
  import opened Ordering
  import opened UnionFind
  import opened DeviceRegistry
  import opened RegistryProofs
  import opened RegistryFixpoint
  import opened RegistryStable

  // ---------------------------------------------------------------- first occurrences

  /** Where `x` occurs first. */
  function Position(xs: seq<string>, x: string): (i: nat)
    requires x in xs
    ensures i < |xs| && xs[i] == x && forall j :: 0 <= j < i ==> xs[j] != x
  {
    if xs[0] == x then 0 else 1 + Position(xs[1..], x)
  }

  lemma PositionIs(xs: seq<string>, x: string, i: nat)
    requires i < |xs| && xs[i] == x && forall j :: 0 <= j < i ==> xs[j] != x
    ensures Position(xs, x) == i
  {
  }

  lemma PositionNext(xs: seq<string>, y: string, x: string)
    requires x in xs || x == y
    ensures x in xs ==> Position(xs + [y], x) == Position(xs, x)
    ensures x !in xs ==> Position(xs + [y], x) == |xs|
  {
    PositionIs(xs + [y], x, if x in xs then Position(xs, x) else |xs|);
  }

  /** The names stand in the order of their first places. */
  ghost predicate InOrderOf(xs: seq<string>, r: seq<string>) {
    && (forall k :: 0 <= k < |r| ==> r[k] in xs)
    && (forall a, b :: 0 <= a < b < |r| ==> Position(xs, r[a]) < Position(xs, r[b]))
  }

  lemma InOrderNext(xs: seq<string>, r: seq<string>, y: string)
    requires InOrderOf(xs, r)
    ensures InOrderOf(xs + [y], r)
    ensures y !in xs ==> InOrderOf(xs + [y], r + [y])
  {
    forall k | 0 <= k < |r| ensures Position(xs + [y], r[k]) == Position(xs, r[k]) { PositionNext(xs, y, r[k]); }
    PositionNext(xs, y, y);
  }

  lemma {:induction false} TextListFirsts(xs: seq<string>)
    ensures |TextList(xs)| <= |xs| && InOrderOf(xs, TextList(xs))
  {
    if xs != [] {
      var init, x := xs[..|xs| - 1], xs[|xs| - 1];
      TextListFirsts(init);
      assert xs == init + [x];
      InOrderNext(init, TextList(init), x);
    }
  }

  /** `r` lists the non-blank members of `xs` in order of first appearance, the first `limit` of them. */
  ghost predicate FirstOccurrences(xs: seq<string>, r: seq<string>, limit: nat) {
    && |r| <= limit
    && (forall k :: 0 <= k < |r| ==> r[k] != "" && r[k] in xs)
    && (forall a, b :: 0 <= a < b < |r| ==> Position(xs, r[a]) < Position(xs, r[b]))
    && (forall x :: x in xs && x != "" && x !in r ==>
          |r| == limit && forall k :: 0 <= k < |r| ==> Position(xs, r[k]) < Position(xs, x))
  }

  lemma TextListInOrder(xs: seq<string>)
    ensures |TextList(xs)| <= |xs| && FirstOccurrences(xs, TextList(xs), |xs|)
  {
    TextListFirsts(xs);
  }

  lemma TakeFirsts(xs: seq<string>, limit: nat)
    ensures FirstOccurrences(xs, Take(TextList(xs), limit), limit)
  {
    TextListInOrder(xs);
    var r := TextList(xs);
    forall x | x in xs && x != "" && x !in Take(r, limit)
      ensures |r| > limit && forall k :: 0 <= k < limit ==> Position(xs, r[k]) < Position(xs, x)
    {
      var j :| 0 <= j < |r| && r[j] == x;
    }
  }

  lemma {:induction false} TextListTwice(xs: seq<string>, ys: seq<string>)
    ensures TextList(TextList(xs) + ys) == TextList(xs + ys)
  {
    if ys == [] {
      assert xs + ys == xs && TextList(xs) + ys == TextList(xs);
      TextListDistinct(xs);
      TextListFixpoint(TextList(xs));
    } else {
      var init := ys[..|ys| - 1];
      TextListTwice(xs, init);
      assert (TextList(xs) + ys)[..|TextList(xs) + ys| - 1] == TextList(xs) + init;
      assert (xs + ys)[..|xs + ys| - 1] == xs + init;
    }
  }

  // ---------------------------------------------------------------- a cluster's entry, from its records

  /** The hosts of the cluster's records on this PC, or of those from the shared file, record by record. */
  function MemberHosts(nodes: seq<Node>, c: seq<nat>, r: nat, local: bool, n: nat): seq<string>
    requires |c| == |nodes| && n <= |nodes|
  {
    if n == 0 then []
    else
      MemberHosts(nodes, c, r, local, n - 1) +
      (if c[n - 1] == r && IsLocal(nodes[n - 1]) == local then nodes[n - 1].hosts else [])
  }

  /** Some slot of this PC in the cluster has an address. */
  ghost predicate LocalHost(nodes: seq<Node>, c: seq<nat>, r: nat)
    requires |c| == |nodes|
  {
    exists j, h :: 0 <= j < |nodes| && c[j] == r && IsLocal(nodes[j]) && h in nodes[j].hosts && h != ""
  }

  /** Record `j` belongs to the cluster and, if `own`, to this PC. */
  predicate Member(nodes: seq<Node>, c: seq<nat>, r: nat, own: bool, j: nat)
    requires |c| == |nodes| && j < |nodes|
  {
    c[j] == r && (own ==> IsLocal(nodes[j]))
  }

  /** `name` is the first name among those members of the first `n` records; blank when none has one. */
  ghost predicate FirstNamed(nodes: seq<Node>, c: seq<nat>, r: nat, own: bool, n: nat, name: string)
    requires |c| == |nodes| && n <= |nodes|
  {
    if name == "" then forall j :: 0 <= j < n && Member(nodes, c, r, own, j) ==> nodes[j].name == ""
    else exists j :: 0 <= j < n && Member(nodes, c, r, own, j) && nodes[j].name == name &&
                     forall k :: 0 <= k < j && Member(nodes, c, r, own, k) ==> nodes[k].name == ""
  }

  ghost predicate LocalName(nodes: seq<Node>, c: seq<nat>, r: nat)
    requires |c| == |nodes|
  {
    exists j :: 0 <= j < |nodes| && Member(nodes, c, r, true, j) && nodes[j].name != ""
  }

  /** The id is the least of the cluster's ids. */
  ghost predicate LeastId(nodes: seq<Node>, c: seq<nat>, r: nat, id: string)
    requires |c| == |nodes|
  {
    && id != "" && (exists j :: 0 <= j < |nodes| && c[j] == r && nodes[j].id == id)
    && forall j :: 0 <= j < |nodes| && c[j] == r && nodes[j].id != "" ==> nodes[j].id == id || Less(id, nodes[j].id)
  }

  /** Every other id and alias of the cluster, and nothing else. */
  ghost predicate OtherNames(nodes: seq<Node>, c: seq<nat>, r: nat, id: string, aliases: seq<string>)
    requires |c| == |nodes|
  {
    forall a :: a in aliases <==>
      a != "" && a != id && exists j :: 0 <= j < |nodes| && c[j] == r && a in Identities(nodes[j])
  }

  /** Addresses of this PC's slots when there are any, of the shared file's records otherwise. */
  ghost predicate OwnHostsFirst(nodes: seq<Node>, c: seq<nat>, r: nat, hosts: seq<string>)
    requires |c| == |nodes|
  {
    FirstOccurrences(MemberHosts(nodes, c, r, LocalHost(nodes, c, r), |nodes|), hosts, MAX_HOSTS)
  }

  /** `e` is what the cluster labelled `r` exports. */
  ghost predicate Describes(nodes: seq<Node>, c: seq<nat>, r: nat, e: Entry)
    requires |c| == |nodes|
  {
    && LeastId(nodes, c, r, e.id)
    && Sorted(e.aliases) && OtherNames(nodes, c, r, e.id, e.aliases)
    && OwnHostsFirst(nodes, c, r, e.hosts) && e.single == ""
    && FirstNamed(nodes, c, r, LocalName(nodes, c, r), |nodes|, e.name)
    && (e.primary <==> exists j :: 0 <= j < |nodes| && c[j] == r && nodes[j].primary)
  }

  ghost predicate HasId(nodes: seq<Node>, c: seq<nat>, r: nat)
    requires |c| == |nodes|
  {
    exists j :: 0 <= j < |nodes| && c[j] == r && nodes[j].id != ""
  }

  // ---------------------------------------------------------------- the entry built is that entry

  lemma {:induction false} HostsAreMembers(nodes: seq<Node>, c: seq<nat>, r: nat, local: bool, n: nat)
    requires |c| == |nodes| && n <= |nodes|
    ensures HostsOf(Group(nodes, c, r, n), local) == TextList(MemberHosts(nodes, c, r, local, n))
  {
    if n > 0 {
      HostsAreMembers(nodes, c, r, local, n - 1);
      GroupStep(nodes, c, r, n);
      var before := MemberHosts(nodes, c, r, local, n - 1);
      if c[n - 1] == r && IsLocal(nodes[n - 1]) == local {
        TextListTwice(before, nodes[n - 1].hosts);
      } else {
        assert MemberHosts(nodes, c, r, local, n) == before;
      }
    }
  }

  lemma {:induction false} MemberHostsHold(nodes: seq<Node>, c: seq<nat>, r: nat, local: bool, n: nat, h: string)
    requires |c| == |nodes| && n <= |nodes|
    ensures h in MemberHosts(nodes, c, r, local, n) <==>
            exists j :: 0 <= j < n && c[j] == r && IsLocal(nodes[j]) == local && h in nodes[j].hosts
  {
    if n > 0 { MemberHostsHold(nodes, c, r, local, n - 1, h); }
  }

  lemma EntryHosts(nodes: seq<Node>, c: seq<nat>, r: nat)
    requires |c| == |nodes| && Ids(Group(nodes, c, r, |nodes|)) != []
    ensures OwnHostsFirst(nodes, c, r, GroupEntry(Group(nodes, c, r, |nodes|)).hosts)
  {
    var g := Group(nodes, c, r, |nodes|);
    var own := MemberHosts(nodes, c, r, true, |nodes|);
    HostsAreMembers(nodes, c, r, true, |nodes|);
    HostsAreMembers(nodes, c, r, false, |nodes|);
    forall h ensures h in own <==>
      exists j :: 0 <= j < |nodes| && c[j] == r && IsLocal(nodes[j]) == true && h in nodes[j].hosts
    {
      MemberHostsHold(nodes, c, r, true, |nodes|, h);
    }
    if HostsOf(g, true) != [] {
      assert HostsOf(g, true)[0] in own;
    }
    if LocalHost(nodes, c, r) {
      var j, h :| 0 <= j < |nodes| && c[j] == r && IsLocal(nodes[j]) && h in nodes[j].hosts && h != "";
      assert h in TextList(own);
    }
    TakeFirsts(MemberHosts(nodes, c, r, LocalHost(nodes, c, r), |nodes|), MAX_HOSTS);
  }

  lemma EntryNames(nodes: seq<Node>, c: seq<nat>, r: nat)
    requires |c| == |nodes| && Ids(Group(nodes, c, r, |nodes|)) != []
    ensures var e := GroupEntry(Group(nodes, c, r, |nodes|));
      LeastId(nodes, c, r, e.id) && Sorted(e.aliases) && OtherNames(nodes, c, r, e.id, e.aliases)
  {
    var g := Group(nodes, c, r, |nodes|);
    var e := GroupEntry(g);
    CanonicalIsId(g);
    IdOfMember(nodes, c, r, |nodes|, e.id);
    SortUniqueSorted(Ids(g));
    forall j | 0 <= j < |nodes| && c[j] == r && nodes[j].id != ""
      ensures nodes[j].id == e.id || Less(e.id, nodes[j].id)
    {
      GroupId(nodes, c, r, |nodes|, j);
      assert nodes[j].id in SortUnique(Ids(g));
    }
    AliasesShape(g);
    forall a ensures a in e.aliases <==>
      a != "" && a != e.id && exists j :: 0 <= j < |nodes| && c[j] == r && a in Identities(nodes[j])
    {
      GroupIdentity(nodes, c, r, |nodes|, a);
    }
  }

  lemma NamedStep(nodes: seq<Node>, c: seq<nat>, r: nat, own: bool, n: nat, name: string)
    requires |c| == |nodes| && 0 < n <= |nodes| && FirstNamed(nodes, c, r, own, n - 1, name)
    ensures FirstNamed(nodes, c, r, own, n,
                       if name == "" && Member(nodes, c, r, own, n - 1) then nodes[n - 1].name else name)
  {
  }

  lemma NameStep(nodes: seq<Node>, c: seq<nat>, r: nat, n: nat)
    requires |c| == |nodes| && 0 < n <= |nodes|
    ensures var g, h := Group(nodes, c, r, n - 1), Group(nodes, c, r, n);
      && FirstName(h) == (if FirstName(g) == "" && c[n - 1] == r then nodes[n - 1].name else FirstName(g))
      && FirstName(Locals(h)) ==
           if FirstName(Locals(g)) == "" && c[n - 1] == r && IsLocal(nodes[n - 1]) then nodes[n - 1].name
           else FirstName(Locals(g))
  {
    var g, h := Group(nodes, c, r, n - 1), Group(nodes, c, r, n);
    GroupStep(nodes, c, r, n);
    if c[n - 1] == r {
      assert h == g + [nodes[n - 1]];
      if IsLocal(nodes[n - 1]) { LocalsAppend(g, nodes[n - 1]); } else { assert Locals(h) == Locals(g); }
    }
  }

  lemma {:induction false} NamesAreFirst(nodes: seq<Node>, c: seq<nat>, r: nat, n: nat)
    requires |c| == |nodes| && n <= |nodes|
    ensures FirstNamed(nodes, c, r, true, n, FirstName(Locals(Group(nodes, c, r, n))))
    ensures FirstNamed(nodes, c, r, false, n, FirstName(Group(nodes, c, r, n)))
  {
    if n > 0 {
      NamesAreFirst(nodes, c, r, n - 1);
      NameStep(nodes, c, r, n);
      NamedStep(nodes, c, r, true, n, FirstName(Locals(Group(nodes, c, r, n - 1))));
      NamedStep(nodes, c, r, false, n, FirstName(Group(nodes, c, r, n - 1)));
    }
  }

  lemma EntryName(nodes: seq<Node>, c: seq<nat>, r: nat)
    requires |c| == |nodes| && Ids(Group(nodes, c, r, |nodes|)) != []
    ensures FirstNamed(nodes, c, r, LocalName(nodes, c, r), |nodes|, GroupEntry(Group(nodes, c, r, |nodes|)).name)
  {
    NamesAreFirst(nodes, c, r, |nodes|);
  }

  /** The entry built for a cluster describes it. */
  lemma EntryDescribes(nodes: seq<Node>, c: seq<nat>, r: nat)
    requires |c| == |nodes| && Ids(Group(nodes, c, r, |nodes|)) != []
    ensures Describes(nodes, c, r, GroupEntry(Group(nodes, c, r, |nodes|)))
  {
    EntryNames(nodes, c, r);
    EntryHosts(nodes, c, r);
    EntryName(nodes, c, r);
    GroupPrimary(nodes, c, r, |nodes|);
  }

  // ---------------------------------------------------------------- and no other entry is

  lemma {:induction false} SamePrefix(xs: seq<string>, r: seq<string>, s: seq<string>, limit: nat, n: nat)
    requires FirstOccurrences(xs, r, limit) && FirstOccurrences(xs, s, limit) && n <= |r| && n <= |s|
    ensures r[..n] == s[..n]
  {
    if n > 0 {
      SamePrefix(xs, r, s, limit, n - 1);
      var k := n - 1;
      if Position(xs, r[k]) < Position(xs, s[k]) {
        NotLater(xs, r, s, limit, k);
      } else if Position(xs, s[k]) < Position(xs, r[k]) {
        NotLater(xs, s, r, limit, k);
      }
      assert r[..n] == r[..k] + [r[k]] && s[..n] == s[..k] + [s[k]];
    }
  }

  lemma NoRepetition(xs: seq<string>, r: seq<string>, limit: nat)
    requires FirstOccurrences(xs, r, limit)
    ensures Distinct(r)
  {
    forall a, b | 0 <= a < b < |r| ensures r[a] != r[b] { assert Position(xs, r[a]) < Position(xs, r[b]); }
  }

  lemma NotLater(xs: seq<string>, r: seq<string>, s: seq<string>, limit: nat, k: nat)
    requires FirstOccurrences(xs, r, limit) && FirstOccurrences(xs, s, limit) && k < |r| && k < |s| && r[..k] == s[..k]
    ensures Position(xs, s[k]) <= Position(xs, r[k])
  {
    NoRepetition(xs, r, limit);
    if j :| k <= j < |s| && s[j] == r[k] {
      assert j > k ==> Position(xs, s[k]) < Position(xs, s[j]);
    } else {
      forall j | 0 <= j < k ensures s[j] != r[k] { assert s[j] == s[..k][j] == r[..k][j]; }
    }
  }

  lemma Complete(xs: seq<string>, r: seq<string>, limit: nat, x: string)
    requires FirstOccurrences(xs, r, limit) && x in xs && x != "" && |r| < limit
    ensures x in r
  {
  }

  /** First occurrences are determined. */
  lemma FirstsDetermined(xs: seq<string>, r: seq<string>, s: seq<string>, limit: nat)
    requires FirstOccurrences(xs, r, limit) && FirstOccurrences(xs, s, limit) && |r| <= |s|
    ensures r == s
  {
    SamePrefix(xs, r, s, limit, |r|);
    assert r == r[..|r|];
    if |r| == |s| {
      assert s == s[..|r|];
    } else {
      NoRepetition(xs, s, limit);
      Complete(xs, r, limit, s[|r|]);
    }
  }

  lemma FirstNameDetermined(nodes: seq<Node>, c: seq<nat>, r: nat, own: bool, n: nat, a: string, b: string)
    requires |c| == |nodes| && n <= |nodes| && FirstNamed(nodes, c, r, own, n, a) && FirstNamed(nodes, c, r, own, n, b)
    ensures a == b
  {
    if a != "" && b != "" {
      var i :| 0 <= i < n && Member(nodes, c, r, own, i) && nodes[i].name == a &&
        forall k :: 0 <= k < i && Member(nodes, c, r, own, k) ==> nodes[k].name == "";
      var j :| 0 <= j < n && Member(nodes, c, r, own, j) && nodes[j].name == b &&
        forall k :: 0 <= k < j && Member(nodes, c, r, own, k) ==> nodes[k].name == "";
      assert i == j;
    }
  }

  lemma LeastIdDetermined(nodes: seq<Node>, c: seq<nat>, r: nat, a: string, b: string)
    requires |c| == |nodes| && LeastId(nodes, c, r, a) && LeastId(nodes, c, r, b)
    ensures a == b
  {
    LessTotal(a, b);
  }

  /** A description fits one entry only. */
  lemma DescribedOnce(nodes: seq<Node>, c: seq<nat>, r: nat, d: Entry, e: Entry)
    requires |c| == |nodes| && Describes(nodes, c, r, d) && Describes(nodes, c, r, e)
    ensures d == e
  {
    LeastIdDetermined(nodes, c, r, d.id, e.id);
    SortedDetermined(d.aliases, e.aliases);
    var own := MemberHosts(nodes, c, r, LocalHost(nodes, c, r), |nodes|);
    if |d.hosts| <= |e.hosts| {
      FirstsDetermined(own, d.hosts, e.hosts, MAX_HOSTS);
    } else {
      FirstsDetermined(own, e.hosts, d.hosts, MAX_HOSTS);
    }
    FirstNameDetermined(nodes, c, r, LocalName(nodes, c, r), |nodes|, d.name, e.name);
  }

  // ---------------------------------------------------------------- the whole export

  ghost predicate Exported(nodes: seq<Node>, c: seq<nat>, es: seq<Entry>, i: nat)
    requires |c| == |nodes| && i < |nodes|
  {
    HasId(nodes, c, c[i]) && exists e :: e in es && Describes(nodes, c, c[i], e)
  }

  /** The entry describes some cluster that has an id. */
  ghost predicate Explained(nodes: seq<Node>, c: seq<nat>, e: Entry)
    requires |c| == |nodes|
  {
    exists i :: 0 <= i < |nodes| && HasId(nodes, c, c[i]) && Describes(nodes, c, c[i], e)
  }

  function FirstHost(e: Entry): string {
    if e.hosts == [] then "" else e.hosts[0]
  }

  /** By first host, then by id; an entry without hosts comes before all others. */
  ghost predicate InExportOrder(es: seq<Entry>) {
    forall i, j :: 0 <= i < j < |es| ==>
      Less(FirstHost(es[i]), FirstHost(es[j])) || (FirstHost(es[i]) == FirstHost(es[j]) && Less(es[i].id, es[j].id))
  }

  /** `es` lists one entry for every cluster that has an id, each describing its cluster, by first host and id. */
  ghost predicate Explains(nodes: seq<Node>, es: seq<Entry>) {
    var c := Clusters(nodes);
    && InExportOrder(es) && DistinctIds(es)
    && (forall i :: 0 <= i < |nodes| && HasId(nodes, c, c[i]) ==> Exported(nodes, c, es, i))
    && (forall k :: 0 <= k < |es| ==> Explained(nodes, c, es[k]))
  }

  lemma HasIdIff(nodes: seq<Node>, c: seq<nat>, r: nat)
    requires |c| == |nodes|
    ensures HasId(nodes, c, r) <==> Ids(Group(nodes, c, r, |nodes|)) != []
  {
    var g := Group(nodes, c, r, |nodes|);
    if HasId(nodes, c, r) {
      var j :| 0 <= j < |nodes| && c[j] == r && nodes[j].id != "";
      GroupId(nodes, c, r, |nodes|, j);
    }
    if Ids(g) != [] {
      IdsAmongAllIds(g, Ids(g)[0]);
      IdOfMember(nodes, c, r, |nodes|, Ids(g)[0]);
    }
  }

  lemma SortedDistinctIds(es: seq<Entry>)
    requires DistinctIds(es)
    ensures DistinctIds(SortEntries(es))
    decreases |es|
  {
    if es != [] {
      var init, e := es[..|es| - 1], es[|es| - 1];
      SortedDistinctIds(init);
      SortEntriesSorted(init);
      var s := SortEntries(init);
      forall k | 0 <= k < |s| ensures s[k].id != e.id {
        assert s[k] in init;
        var i :| 0 <= i < |init| && init[i] == s[k];
        assert es[i].id != es[|es| - 1].id;
      }
      InsertDistinct(e, s);
    }
  }

  lemma {:induction false} InsertDistinct(e: Entry, s: seq<Entry>)
    requires DistinctIds(s) && forall k :: 0 <= k < |s| ==> s[k].id != e.id
    ensures DistinctIds(InsertEntry(e, s))
    ensures forall x :: x in InsertEntry(e, s) ==> x == e || x in s
  {
    if s != [] && EntryLess(s[0], e) {
      InsertDistinct(e, s[1..]);
      var t := InsertEntry(e, s[1..]);
      forall j | 0 <= j < |t| ensures t[j].id != s[0].id {
        assert t[j] in t;
        if t[j] != e {
          assert t[j] in s[1..];
          var i :| 0 <= i < |s| - 1 && s[1..][i] == t[j];
        }
      }
    }
  }

  /** What one record's cluster exports, and that it is in the list. */
  lemma ClusterExports(nodes: seq<Node>, c: seq<nat>, v: View, i: nat)
    requires Faithful(nodes, c, v) && i < |nodes|
    ensures v[i].Some? <==> HasId(nodes, c, c[i])
    ensures v[i].Some? ==> Describes(nodes, c, c[i], v[i].value)
  {
    assert ViewAt(nodes, c, v, i);
    HasIdIff(nodes, c, c[i]);
    if v[i].Some? { EntryDescribes(nodes, c, c[i]); }
  }

  /** What a reconciliation exports, in terms of records and clusters. */
  lemma ReconcileExplains(cfg: Config, remote: seq<Entry>)
    ensures Explains(Records(cfg, remote), Reconcile(cfg, remote).0)
  {
    var nodes := Records(cfg, remote);
    var c := Clusters(nodes);
    var v := EntriesPer(nodes, c);
    EntriesPerFaithful(nodes, c);
    FaithfulView(nodes, c, v);
    EntriesDistinct(nodes, v);
    SortEntriesSorted(Listed(c, v));
    SortedDistinctIds(Listed(c, v));
    ListExplains(nodes, v, SortEntries(Listed(c, v)));
  }

  lemma RecordExported(nodes: seq<Node>, c: seq<nat>, v: View, es: seq<Entry>, i: nat)
    requires Faithful(nodes, c, v) && PerCluster(c, v) && i < |nodes| && HasId(nodes, c, c[i])
    requires forall e :: e in es <==> e in Listed(c, v)
    ensures Exported(nodes, c, es, i)
  {
    ClusterExports(nodes, c, v, i);
    EntryMembers(c, v, v[i].value);
  }

  lemma EntryExplained(nodes: seq<Node>, c: seq<nat>, v: View, e: Entry)
    requires Faithful(nodes, c, v) && PerCluster(c, v) && e in Listed(c, v)
    ensures Explained(nodes, c, e)
  {
    EntryMembers(c, v, e);
    var i :| 0 <= i < |v| && v[i] == Some(e);
    ClusterExports(nodes, c, v, i);
  }

  lemma OrderedBySortHost(es: seq<Entry>)
    requires EntriesSorted(es)
    ensures InExportOrder(es)
  {
  }

  lemma ListExplains(nodes: seq<Node>, v: View, es: seq<Entry>)
    requires Faithful(nodes, Clusters(nodes), v) && PerCluster(Clusters(nodes), v)
    requires EntriesSorted(es) && DistinctIds(es) && forall e :: e in es <==> e in Listed(Clusters(nodes), v)
    ensures Explains(nodes, es)
  {
    var c := Clusters(nodes);
    OrderedBySortHost(es);
    forall i | 0 <= i < |nodes| && HasId(nodes, c, c[i]) ensures Exported(nodes, c, es, i) {
      RecordExported(nodes, c, v, es, i);
    }
    forall k | 0 <= k < |es| ensures Explained(nodes, c, es[k]) { EntryExplained(nodes, c, v, es[k]); }
  }
}
