/**
 Several PCs exchanging their sync history through one shared folder.  The folder holds the
 canonical history file, which any PC may overwrite and a cloud client may roll back, and one
 snapshot per PC, which only that PC writes.  A file is the sequence of its versions, so a reader
 may also see an older one.
 */
module Convergence {
  import opened Wrappers
  import opened Lww
  import opened History
  import opened Replicas

  /** Version 0 is the empty folder; the last version is the current one. */
  type File = f: seq<Option<Payload>> | f != [] witness [None]

  datatype World = World(pcs: seq<Tables>, canon: File, snaps: seq<File>)

  /** What one reader sees: the current files, or some earlier version of each. */
  datatype View = Latest | Stale(canonVersion: nat, snapVersions: seq<nat>)

  /** How far a push came before it was interrupted. */
  datatype Reach = ImportedOnly | CanonWritten | Published

  datatype Action =
    | LocalMark(pc: nat, entries: seq<MarkEntry>, now: nat)
    | LocalDelete(pc: nat, url: string, now: nat)
    | LocalClear(pc: nat, now: nat)
    | Pull(pc: nat, view: View, republish: bool, now: nat)
    | Push(pc: nat, view: View, reach: Reach, now: nat)
    | RollBack(version: nat)

  // ---------------------------------------------------------------- steps

  function Current(f: File): Option<Payload> { f[|f| - 1] }

  function Version(f: File, version: nat): Option<Payload> {
    if version < |f| then f[version] else Current(f)
  }

  function SeenCanon(w: World, v: View): Option<Payload> {
    if v.Latest? then Current(w.canon) else Version(w.canon, v.canonVersion)
  }

  function SeenSnap(w: World, v: View, i: nat): Option<Payload>
    requires i < |w.snaps|
  {
    if v.Latest? || i >= |v.snapVersions| then Current(w.snaps[i]) else Version(w.snaps[i], v.snapVersions[i])
  }

  /** The snapshot files present among the first `n` PCs. */
  function PresentSnaps(w: World, v: View, n: nat): (r: seq<Payload>)
    requires n <= |w.snaps|
    ensures |r| <= n
  {
    if n == 0 then []
    else
      var s := SeenSnap(w, v, n - 1);
      PresentSnaps(w, v, n - 1) + (if s.Some? then [s.value] else [])
  }

  /** What `merge_replica_inputs` returns for this reader. */
  function Merged(w: World, v: View): Result<Payload> {
    var snaps := PresentSnaps(w, v, |w.snaps|);
    MergeHistory(SeenCanon(w, v), if snaps == [] then None else Some(snaps))
  }

  ghost function ListPosts(live: map<Key, Row>): seq<Post> {
    if live == map[] then []
    else
      var k :| k in live;
      ListPosts(live - {k}) + [Post(k, live[k].site, live[k].title, live[k].at)]
  }

  ghost function ListTombs(dead: map<Key, nat>): seq<Tomb> {
    if dead == map[] then []
    else
      var k :| k in dead;
      ListTombs(dead - {k}) + [Tomb(k, At(dead[k]))]
  }

  /** `export_all_posts` and `export_deleted_posts`; the order of the rows is immaterial here. */
  ghost function Export(t: Tables): Payload {
    Payload(ListPosts(t.live), ListTombs(t.dead))
  }

  ghost function PushTo(w: World, pc: nat, p: Payload, reach: Reach, now: nat): World
    requires pc < |w.pcs| == |w.snaps|
  {
    var t := Absorb(w.pcs[pc], p, now);
    var out := Some(Export(t));
    World(w.pcs[pc := t],
          if reach.ImportedOnly? then w.canon else w.canon + [out],
          if reach.Published? then w.snaps[pc := w.snaps[pc] + [out]] else w.snaps)
  }

  ghost function PullFrom(w: World, pc: nat, p: Payload, republish: bool, now: nat): World
    requires pc < |w.pcs|
  {
    World(w.pcs[pc := Absorb(w.pcs[pc], p, now)], if republish then w.canon + [Some(p)] else w.canon, w.snaps)
  }

  /** One action; an action whose merge is refused changes nothing. */
  ghost function Step(w: World, a: Action): World
    requires |w.pcs| == |w.snaps|
  {
    match a
    case LocalMark(pc, es, now) =>
      if pc < |w.pcs| then w.(pcs := w.pcs[pc := MarkAll(w.pcs[pc], es, now)]) else w
    case LocalDelete(pc, url, now) =>
      if pc < |w.pcs| && url != "" then
        w.(pcs := w.pcs[pc := Bury(w.pcs[pc], KeysOfUrl(w.pcs[pc], url), now)])
      else w
    case LocalClear(pc, now) =>
      if pc < |w.pcs| then w.(pcs := w.pcs[pc := Bury(w.pcs[pc], w.pcs[pc].live.Keys, now)]) else w
    case Pull(pc, view, republish, now) =>
      var m := Merged(w, view);
      if pc < |w.pcs| && m.Ok? then PullFrom(w, pc, m.value, republish, now) else w
    case Push(pc, view, reach, now) =>
      var m := Merged(w, view);
      if pc < |w.pcs| && m.Ok? then PushTo(w, pc, m.value, reach, now) else w
    case RollBack(version) =>
      w.(canon := w.canon + [Version(w.canon, version)])
  }

  ghost function Run(w: World, acts: seq<Action>): (r: World)
    requires |w.pcs| == |w.snaps|
    ensures |r.pcs| == |r.snaps| == |w.pcs|
  {
    if acts == [] then w else Step(Run(w, acts[..|acts| - 1]), acts[|acts| - 1])
  }

  // ---------------------------------------------------------------- what was recorded

  /** The mark a local change puts on key `k` at PC `pc`; Unknown for everything else. */
  ghost function LocalChange(w: World, a: Action, pc: nat, k: Key): Mark
    requires |w.pcs| == |w.snaps|
  {
    match a
    case LocalMark(p, es, now) =>
      if p == pc && Named(k) && exists i :: 0 <= i < |es| && es[i].key == k then Live(now + 1) else Unknown
    case LocalDelete(p, url, now) =>
      if p == pc < |w.pcs| && url != "" && k.url == url && k in w.pcs[pc].live then Dead(now + 1) else Unknown
    case LocalClear(p, now) =>
      if p == pc < |w.pcs| && k in w.pcs[pc].live then Dead(now + 1) else Unknown
    case _ => Unknown
  }

  /** Everything PC `pc` started with or recorded itself in the run. */
  ghost function RecordedBy(w: World, acts: seq<Action>, pc: nat, k: Key): Mark
    requires pc < |w.pcs| == |w.snaps|
  {
    if acts == [] then Status(w.pcs[pc], k)
    else
      var init := acts[..|acts| - 1];
      Join(RecordedBy(w, init, pc, k), LocalChange(Run(w, init), acts[|acts| - 1], pc, k))
  }

  /** The join of everything recorded on the first `n` PCs. */
  ghost function RecordedUpTo(w: World, acts: seq<Action>, n: nat, k: Key): Mark
    requires n <= |w.pcs| == |w.snaps|
  {
    if n == 0 then Unknown else Join(RecordedUpTo(w, acts, n - 1, k), RecordedBy(w, acts, n - 1, k))
  }

  ghost function Recorded(w: World, acts: seq<Action>, k: Key): Mark
    requires |w.pcs| == |w.snaps|
  {
    RecordedUpTo(w, acts, |w.pcs|, k)
  }

  // ---------------------------------------------------------------- hypotheses on a run

  predicate IsLocal(a: Action) {
    a.LocalMark? || a.LocalDelete? || a.LocalClear?
  }

  /** The PC's clock has passed the deletion it holds for `k`, or reached the delivery. */
  predicate ClockAhead(t: Tables, k: Key, now: nat) {
    (k in t.live ==> TimeKey(t.live[k].at) <= now) && (k in t.dead ==> t.dead[k] < now)
  }

  predicate Clocked(w: World, a: Action, k: Key) {
    IsLocal(a) && a.pc < |w.pcs| ==> ClockAhead(w.pcs[a.pc], k, a.now)
  }

  ghost predicate ClockedAt(w: World, acts: seq<Action>, k: Key, n: nat)
    requires |w.pcs| == |w.snaps| && n < |acts|
  {
    Clocked(Run(w, acts[..n]), acts[n], k)
  }

  /** Every local change of the run happens on a PC whose clock is past what that PC holds for `k`. */
  ghost predicate ClockedRun(w: World, acts: seq<Action>, k: Key)
    requires |w.pcs| == |w.snaps|
  {
    forall n {:trigger ClockedAt(w, acts, k, n)} :: 0 <= n < |acts| ==> ClockedAt(w, acts, k, n)
  }

  ghost predicate DatedTables(t: Tables) {
    Consistent(t) && forall k :: k in t.live ==> t.live[k].at.At?
  }

  ghost predicate GoodFile(f: File) {
    forall v :: 0 <= v < |f| && f[v].Some? ==> DatedPayload(f[v].value) && ValidIdentities(f[v].value)
  }

  ghost predicate GoodWorld(w: World) {
    && |w.pcs| == |w.snaps|
    && (forall i :: 0 <= i < |w.pcs| ==> DatedTables(w.pcs[i]))
    && GoodFile(w.canon)
    && (forall i :: 0 <= i < |w.snaps| ==> GoodFile(w.snaps[i]))
  }

  /** Any databases, an empty shared folder. */
  ghost predicate Start(w: World) {
    && |w.pcs| == |w.snaps| <= MAX_SNAPSHOTS
    && (forall i :: 0 <= i < |w.pcs| ==> DatedTables(w.pcs[i]))
    && w.canon == [None]
    && (forall i :: 0 <= i < |w.snaps| ==> w.snaps[i] == [None])
  }
}
