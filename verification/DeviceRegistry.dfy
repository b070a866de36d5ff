/**
 The shared device registry: records of this PC and of the shared file are clustered into
 readers, every cluster gets one canonical id, and the local slots adopt it, keeping every
 other id as an alias.
 */
module DeviceRegistry {
  import opened Wrappers
  import opened Ordering
  import opened UnionFind

  const MAX_HOSTS := 16

  datatype Slot = NoSlot | PrimarySlot | DeviceSlot(index: nat)

  datatype Node = Node(id: string, hosts: seq<string>, aliases: seq<string>, name: string, slot: Slot, primary: bool)

  /** An extra reader of this PC; a blank ip means it takes no part. */
  datatype Device = Device(ip: string, id: string, aliases: seq<string>, name: string)

  /** The identity half of config.json: normalised hosts, stripped ids. */
  datatype Config = Config(host: string, primaryId: string, primaryAliases: seq<string>, devices: seq<Device>)

  /** A device of the shared file; `single` is the older one-host field. */
  datatype Entry = Entry(id: string, hosts: seq<string>, single: string, aliases: seq<string>, name: string,
      primary: bool)

  // ---------------------------------------------------------------- lists

  /** `_text_list`: without blanks and repetitions, first occurrences in order. */
  function TextList(xs: seq<string>): (r: seq<string>)
    ensures forall x :: x in r <==> x in xs && x != ""
  {
    if xs == [] then []
    else
      var r, x := TextList(xs[..|xs| - 1]), xs[|xs| - 1];
      assert xs == xs[..|xs| - 1] + [x];
      if x == "" || x in r then r else r + [x]
  }

  function Without(xs: seq<string>, x: string): (r: seq<string>)
    ensures forall y :: y in r <==> y in xs && y != x
  {
    if xs == [] then []
    else
      var r, y := Without(xs[..|xs| - 1], x), xs[|xs| - 1];
      assert xs == xs[..|xs| - 1] + [y];
      if y == x then r else r + [y]
  }

  function Take(xs: seq<string>, n: nat): seq<string> {
    if |xs| <= n then xs else xs[..n]
  }

  // ---------------------------------------------------------------- records

  function PrimaryRecord(c: Config): Node {
    Node(c.primaryId, [c.host], TextList(c.primaryAliases), "", PrimarySlot, true)
  }

  function DeviceRecord(d: Device, index: nat): Node {
    Node(d.id, [d.ip], TextList(d.aliases), d.name, DeviceSlot(index), false)
  }

  function DeviceRecords(ds: seq<Device>): seq<Node> {
    if ds == [] then []
    else
      var d := ds[|ds| - 1];
      DeviceRecords(ds[..|ds| - 1]) + (if d.ip == "" then [] else [DeviceRecord(d, |ds| - 1)])
  }

  function LocalRecords(c: Config): seq<Node> {
    (if c.host == "" then [] else [PrimaryRecord(c)]) + DeviceRecords(c.devices)
  }

  function RemoteRecord(e: Entry): Node {
    Node(e.id, Take(TextList(e.hosts + [e.single]), MAX_HOSTS), Without(TextList(e.aliases), e.id), e.name, NoSlot,
        e.primary)
  }

  predicate Usable(e: Entry) {
    e.id != "" || TextList(e.hosts + [e.single]) != []
  }

  function RemoteRecords(es: seq<Entry>): seq<Node> {
    if es == [] then []
    else
      var e := es[|es| - 1];
      RemoteRecords(es[..|es| - 1]) + (if Usable(e) then [RemoteRecord(e)] else [])
  }

  // ---------------------------------------------------------------- same reader

  function Identities(n: Node): seq<string> {
    (if n.id == "" then [] else [n.id]) + n.aliases
  }

  /** Two records that share a host, an id or an alias describe the same reader. */
  predicate Linked(a: Node, b: Node) {
    || (exists h :: h in a.hosts && h in b.hosts)
    || (exists x :: x in Identities(a) && x in Identities(b) && x != "")
  }

  /** A chain of records, each linked to the next. */
  ghost predicate Chain(nodes: seq<Node>, p: seq<nat>) {
    && p != []
    && (forall k :: 0 <= k < |p| ==> p[k] < |nodes|)
    && (forall k :: 0 < k < |p| ==> Linked(nodes[p[k - 1]], nodes[p[k]]))
  }

  ghost predicate Connected(nodes: seq<Node>, i: nat, j: nat) {
    exists p :: Chain(nodes, p) && p[0] == i && p[|p| - 1] == j
  }

  /** The least record connected to `i`, searched from `j` on. */
  ghost function LeastFrom(nodes: seq<Node>, i: nat, j: nat): (r: nat)
    requires j <= i < |nodes|
    ensures r <= i
    decreases i - j
  {
    if j == i || Connected(nodes, i, j) then j else LeastFrom(nodes, i, j + 1)
  }

  /** The partition by chains: every record labelled with the least record it is connected to. */
  ghost function Closure(nodes: seq<Node>): seq<nat> {
    seq(|nodes|, i requires 0 <= i < |nodes| => LeastFrom(nodes, i, 0))
  }

  // ---------------------------------------------------------------- primary readers

  /** How many of this PC's slots among the first `n` records carry label `r`. */
  function LocalCount(nodes: seq<Node>, c: seq<nat>, r: nat, n: nat): nat
    requires |c| == |nodes| && n <= |nodes|
  {
    if n == 0 then 0
    else LocalCount(nodes, c, r, n - 1) + (if nodes[n - 1].slot != NoSlot && c[n - 1] == r then 1 else 0)
  }

  /** Joining the clusters of `h` and `i` would put two of this PC's slots into one cluster. */
  predicate Blocked(nodes: seq<Node>, c: seq<nat>, h: nat, i: nat)
    requires |c| == |nodes| && h < |nodes| && i < |nodes|
  {
    LocalCount(nodes, c, c[h], |nodes|) + LocalCount(nodes, c, c[i], |nodes|) > 1
  }

  function PrimaryStep(nodes: seq<Node>, c: seq<nat>, h: nat, i: nat): (d: seq<nat>)
    requires |c| == |nodes| && h < |nodes| && i < |nodes|
    ensures |d| == |nodes|
  {
    if c[h] == c[i] || Blocked(nodes, c, h, i) then c else Joined(c, h, i)
  }

  /** The records flagged primary among the first `n`. */
  function Primaries(nodes: seq<Node>, n: nat): (ps: seq<nat>)
    requires n <= |nodes|
    ensures forall k :: 0 <= k < |ps| ==> ps[k] < n && nodes[ps[k]].primary
    ensures forall i :: 0 <= i < n && nodes[i].primary ==> i in ps
  {
    if n == 0 then [] else Primaries(nodes, n - 1) + (if nodes[n - 1].primary then [n - 1] else [])
  }

  function PrimaryFold(nodes: seq<Node>, c: seq<nat>, h: nat, ps: seq<nat>): (d: seq<nat>)
    requires |c| == |nodes| && h < |nodes| && forall k :: 0 <= k < |ps| ==> ps[k] < |nodes|
    ensures |d| == |nodes|
  {
    if ps == [] then c
    else PrimaryStep(nodes, PrimaryFold(nodes, c, h, ps[..|ps| - 1]), h, ps[|ps| - 1])
  }

  function PrimaryPass(nodes: seq<Node>, c: seq<nat>): (d: seq<nat>)
    requires |c| == |nodes|
    ensures |d| == |nodes|
  {
    var ps := Primaries(nodes, |nodes|);
    if ps == [] then c else PrimaryFold(nodes, c, ps[0], ps[1..])
  }

  ghost function Clusters(nodes: seq<Node>): (c: seq<nat>)
    ensures |c| == |nodes|
  {
    PrimaryPass(nodes, Closure(nodes))
  }

  // ---------------------------------------------------------------- one entry per cluster

  /** The records labelled `r` among the first `n`, in order. */
  function Group(nodes: seq<Node>, c: seq<nat>, r: nat, n: nat): seq<Node>
    requires |c| == |nodes| && n <= |nodes|
  {
    if n == 0 then []
    else Group(nodes, c, r, n - 1) + (if c[n - 1] == r then [nodes[n - 1]] else [])
  }

  function Ids(g: seq<Node>): seq<string> {
    if g == [] then []
    else Ids(g[..|g| - 1]) + (if g[|g| - 1].id == "" then [] else [g[|g| - 1].id])
  }

  function AllIds(g: seq<Node>): seq<string> {
    if g == [] then [] else AllIds(g[..|g| - 1]) + Identities(g[|g| - 1])
  }

  predicate IsLocal(n: Node) {
    n.slot != NoSlot
  }

  function Locals(g: seq<Node>): seq<Node> {
    if g == [] then []
    else Locals(g[..|g| - 1]) + (if IsLocal(g[|g| - 1]) then [g[|g| - 1]] else [])
  }

  /** `host_out` of the local or of the remote members. */
  function HostsOf(g: seq<Node>, local: bool): seq<string> {
    if g == [] then []
    else
      var hs, n := HostsOf(g[..|g| - 1], local), g[|g| - 1];
      if IsLocal(n) == local then TextList(hs + n.hosts) else hs
  }

  function FirstName(g: seq<Node>): string {
    if g == [] then ""
    else
      var s := FirstName(g[..|g| - 1]);
      if s != "" then s else g[|g| - 1].name
  }

  function AnyPrimary(g: seq<Node>): bool {
    exists i :: 0 <= i < |g| && g[i].primary
  }

  function Canonical(g: seq<Node>): string
    requires Ids(g) != []
  {
    SortUniqueSorted(Ids(g));
    assert Ids(g)[0] in SortUnique(Ids(g));
    SortUnique(Ids(g))[0]
  }

  function GroupAliases(g: seq<Node>): seq<string>
    requires Ids(g) != []
  {
    SortUnique(Without(Without(AllIds(g), ""), Canonical(g)))
  }

  function GroupEntry(g: seq<Node>): Entry
    requires Ids(g) != []
  {
    var local := HostsOf(g, true);
    Entry(Canonical(g), Take(if local != [] then local else HostsOf(g, false), MAX_HOSTS), "", GroupAliases(g),
          if FirstName(Locals(g)) != "" then FirstName(Locals(g)) else FirstName(g), AnyPrimary(g))
  }

  function ClusterOf(nodes: seq<Node>, c: seq<nat>, i: nat): seq<Node>
    requires |c| == |nodes| && i < |nodes|
  {
    Group(nodes, c, c[i], |nodes|)
  }

  /** `i` is the first record of its cluster. */
  predicate IsFirst(c: seq<nat>, i: nat)
    requires i < |c|
  {
    forall j :: 0 <= j < i ==> c[j] != c[i]
  }

  /** What a cluster exports: nothing when none of its records has an id. */
  function GroupView(g: seq<Node>): Option<Entry> {
    if Ids(g) == [] then None else Some(GroupEntry(g))
  }

  type View = seq<Option<Entry>>

  /** The export of each record's cluster. */
  function EntriesPer(nodes: seq<Node>, c: seq<nat>): (v: View)
    requires |c| == |nodes|
    ensures |v| == |nodes|
  {
    seq(|nodes|, i requires 0 <= i < |nodes| => GroupView(ClusterOf(nodes, c, i)))
  }

  /** The first records, among the first `n`, of the clusters that export something. */
  function Heads(c: seq<nat>, v: View, n: nat): (hs: seq<nat>)
    requires |c| == |v| && n <= |c|
    ensures forall k :: 0 <= k < |hs| ==> hs[k] < n && v[hs[k]].Some?
  {
    if n == 0 then []
    else Heads(c, v, n - 1) + (if IsFirst(c, n - 1) && v[n - 1].Some? then [n - 1] else [])
  }

  /** The exports of the given records. */
  function EntriesAt(v: View, hs: seq<nat>): (es: seq<Entry>)
    requires forall k :: 0 <= k < |hs| ==> hs[k] < |v| && v[hs[k]].Some?
    ensures |es| == |hs| && forall k :: 0 <= k < |hs| ==> es[k] == v[hs[k]].value
  {
    seq(|hs|, k requires 0 <= k < |hs| => v[hs[k]].value)
  }

  /** One entry per cluster, in order of first appearance. */
  function Listed(c: seq<nat>, v: View): seq<Entry>
    requires |c| == |v|
  {
    EntriesAt(v, Heads(c, v, |c|))
  }

  // ---------------------------------------------------------------- export order

  function SortHost(e: Entry): string {
    if e.hosts == [] then "" else e.hosts[0]
  }

  predicate EntryLess(a: Entry, b: Entry) {
    Less(SortHost(a), SortHost(b)) || (SortHost(a) == SortHost(b) && Less(a.id, b.id))
  }

  function InsertEntry(e: Entry, s: seq<Entry>): seq<Entry> {
    if s == [] then [e] else if EntryLess(s[0], e) then [s[0]] + InsertEntry(e, s[1..]) else [e] + s
  }

  function SortEntries(es: seq<Entry>): seq<Entry> {
    if es == [] then [] else InsertEntry(es[|es| - 1], SortEntries(es[..|es| - 1]))
  }

  // ---------------------------------------------------------------- write-back

  function AdoptPrimary(c: Config, e: Entry): Config {
    c.(primaryId := e.id,
       primaryAliases := if TextList(c.primaryAliases) != e.aliases then e.aliases else c.primaryAliases)
  }

  function AdoptDevice(d: Device, e: Entry): Device {
    d.(id := e.id, aliases := if TextList(d.aliases) != e.aliases then e.aliases else d.aliases)
  }

  function AdoptSlot(c: Config, s: Slot, e: Entry): Config {
    match s
    case NoSlot => c
    case PrimarySlot => AdoptPrimary(c, e)
    case DeviceSlot(i) => if i < |c.devices| then c.(devices := c.devices[i := AdoptDevice(c.devices[i], e)]) else c
  }

  function AdoptStep(prev: Config, s: Slot, e: Option<Entry>): Config {
    if e.Some? then AdoptSlot(prev, s, e.value) else prev
  }

  /** The first `n` records adopt the entries `v` of their clusters. */
  function Adopt(cfg: Config, nodes: seq<Node>, v: View, n: nat): Config
    requires |v| == |nodes| && n <= |nodes|
  {
    if n == 0 then cfg else AdoptStep(Adopt(cfg, nodes, v, n - 1), nodes[n - 1].slot, v[n - 1])
  }

  function Records(cfg: Config, remote: seq<Entry>): seq<Node> {
    LocalRecords(cfg) + RemoteRecords(remote)
  }

  /** `reconcile_config_devices`: the devices to share and the new configuration. */
  ghost function Reconcile(cfg: Config, remote: seq<Entry>): (seq<Entry>, Config) {
    var nodes := Records(cfg, remote);
    var c := Clusters(nodes);
    var v := EntriesPer(nodes, c);
    (SortEntries(Listed(c, v)), Adopt(cfg, nodes, v, |nodes|))
  }
}
