/**
 What each step writes to the shared folder, and when the canonical history file keeps what a push put there.
 */
module CanonicalFile {
  import opened Wrappers
  import opened Lww
  import opened History
  import opened Replicas
  import opened Convergence
  import opened ConvergenceProofs

  // ---------------------------------------------------------------- what a reader sees

  /** The join of the first `n` PCs' snapshots, each as the reader sees it. */
  function SnapsSeen(w: World, v: View, n: nat, k: Key): Mark
    requires n <= |w.snaps|
  {
    if n == 0 then Unknown else Join(SnapsSeen(w, v, n - 1, k), FileMark(SeenSnap(w, v, n - 1), k))
  }

  /** The join of every file the reader sees. */
  function Seen(w: World, v: View, k: Key): Mark {
    Join(FileMark(SeenCanon(w, v), k), SnapsSeen(w, v, |w.snaps|, k))
  }

  /** Some file the reader sees knows at least `x`. */
  ghost predicate Shown(w: World, v: View, k: Key, x: Mark) {
    || Below(x, FileMark(SeenCanon(w, v), k))
    || exists i :: 0 <= i < |w.snaps| && Below(x, FileMark(SeenSnap(w, v, i), k))
  }

  lemma {:induction false} SnapsSeenAre(w: World, v: View, n: nat, k: Key)
    requires n <= |w.snaps|
    ensures SnapshotMarks(PresentSnaps(w, v, n), k) == SnapsSeen(w, v, n, k)
  {
    if n > 0 {
      SnapsSeenAre(w, v, n - 1, k);
      PresentSnapsUnfold(w, v, n, k);
    }
  }

  lemma {:induction false} SnapsShown(w: World, v: View, n: nat, k: Key, x: Mark)
    requires n <= |w.snaps| && x != Unknown
    ensures Below(x, SnapsSeen(w, v, n, k)) <==> exists i :: 0 <= i < n && Below(x, FileMark(SeenSnap(w, v, i), k))
  {
    if n > 0 { SnapsShown(w, v, n - 1, k, x); }
  }

  lemma SeenIffShown(w: World, v: View, k: Key, x: Mark)
    ensures Below(x, Seen(w, v, k)) <==> Shown(w, v, k, x)
  {
    if x != Unknown { SnapsShown(w, v, |w.snaps|, k, x); }
  }

  // ---------------------------------------------------------------- what one step writes

  /** One more version of the file, which carries `m` about `k`. */
  ghost predicate WrittenWith(before: File, after: File, k: Key, m: Mark) {
    && |after| == |before| + 1 && after[..|before|] == before
    && Current(after).Some? && FileMark(Current(after), k) == m
  }

  /** Everything in the folder and on the other PCs is as it was, but for the files named. */
  ghost predicate OthersStay(w: World, next: World, i: nat)
    requires |w.pcs| == |w.snaps|
  {
    && |next.pcs| == |next.snaps| == |w.pcs|
    && forall j :: 0 <= j < |w.pcs| && j != i ==> next.pcs[j] == w.pcs[j] && next.snaps[j] == w.snaps[j]
  }

  /** After a push the database knows `known`, and so do the files it got to; nothing else has changed. */
  ghost predicate PushedRight(w: World, next: World, i: nat, reach: Reach, k: Key, known: Mark)
    requires i < |w.pcs| == |w.snaps|
  {
    && OthersStay(w, next, i) && Status(next.pcs[i], k) == known
    && (if reach.ImportedOnly? then next.canon == w.canon else WrittenWith(w.canon, next.canon, k, known))
    && (if reach.Published? then WrittenWith(w.snaps[i], next.snaps[i], k, known) else next.snaps[i] == w.snaps[i])
  }

  /** After a pull the database knows `known`, and the canonical file, if republished, `seen`. */
  ghost predicate PulledRight(w: World, next: World, i: nat, republish: bool, k: Key, known: Mark, seen: Mark)
    requires i < |w.pcs| == |w.snaps|
  {
    && OthersStay(w, next, i) && next.snaps == w.snaps && Status(next.pcs[i], k) == known
    && (if republish then WrittenWith(w.canon, next.canon, k, seen) else next.canon == w.canon)
  }

  lemma OneMore(before: File, p: Payload, k: Key)
    ensures WrittenWith(before, before + [Some(p)], k, Marks(p, k))
  {
  }

  lemma PushToWrites(w: World, i: nat, p: Payload, reach: Reach, now: nat, k: Key, known: Mark)
    requires i < |w.pcs| == |w.snaps| && Status(Absorb(w.pcs[i], p, now), k) == known
    requires Marks(Export(Absorb(w.pcs[i], p, now)), k) == known
    ensures PushedRight(w, PushTo(w, i, p, reach, now), i, reach, k, known)
  {
    var out := Export(Absorb(w.pcs[i], p, now));
    OneMore(w.canon, out, k);
    OneMore(w.snaps[i], out, k);
  }

  lemma PullFromWrites(w: World, i: nat, p: Payload, republish: bool, now: nat, k: Key, known: Mark)
    requires i < |w.pcs| == |w.snaps| && Status(Absorb(w.pcs[i], p, now), k) == known
    ensures PulledRight(w, PullFrom(w, i, p, republish, now), i, republish, k, known, Marks(p, k))
  {
    OneMore(w.canon, p, k);
  }

  /** A reader merges the files it sees and nothing else. */
  lemma MergedIsSeen(w: World, v: View, k: Key)
    requires GoodWorld(w) && |w.pcs| <= MAX_SNAPSHOTS
    ensures Merged(w, v).Ok? && Marks(Merged(w, v).value, k) == Seen(w, v, k)
  {
    MergedIsJoin(w, v, k);
    SnapsSeenAre(w, v, |w.snaps|, k);
  }

  /** What a PC knows, and would export, after merging the files it sees. */
  lemma Learnt(w: World, i: nat, v: View, now: nat, k: Key)
    requires GoodWorld(w) && |w.pcs| <= MAX_SNAPSHOTS && Named(k) && i < |w.pcs|
    ensures Merged(w, v).Ok? && Marks(Merged(w, v).value, k) == Seen(w, v, k)
    ensures var t := Absorb(w.pcs[i], Merged(w, v).value, now);
      Status(t, k) == Marks(Export(t), k) == Join(Status(w.pcs[i], k), Seen(w, v, k))
  {
    MergedIsSeen(w, v, k);
    AbsorbMerged(w, v, i, now, k);
    ExportMarks(Absorb(w.pcs[i], Merged(w, v).value, now), k);
  }

  lemma PushStep(w: World, i: nat, v: View, reach: Reach, now: nat, next: World)
    requires i < |w.pcs| == |w.snaps| && Merged(w, v).Ok? && next == Step(w, Push(i, v, reach, now))
    ensures next == PushTo(w, i, Merged(w, v).value, reach, now)
  {
  }

  /** A push learns every file it sees.  Unless it is interrupted before, it writes all it then knows to the canonical
      file and, when it completes, to its own snapshot; it touches nothing else. */
  lemma PushWrites(w: World, i: nat, v: View, reach: Reach, now: nat, k: Key)
    requires GoodWorld(w) && |w.pcs| <= MAX_SNAPSHOTS && Named(k) && i < |w.pcs|
    ensures PushedRight(w, Step(w, Push(i, v, reach, now)), i, reach, k, Join(Status(w.pcs[i], k), Seen(w, v, k)))
  {
    var known := Join(Status(w.pcs[i], k), Seen(w, v, k));
    Learnt(w, i, v, now, k);
    PushToWrites(w, i, Merged(w, v).value, reach, now, k, known);
    PushStep(w, i, v, reach, now, Step(w, Push(i, v, reach, now)));
  }

  /** A pull learns every file it sees and touches no snapshot; when it publishes the readers' registry it writes the
      canonical file with all it saw, whatever else its own database knows. */
  lemma PullWrites(w: World, i: nat, v: View, republish: bool, now: nat, k: Key)
    requires GoodWorld(w) && |w.pcs| <= MAX_SNAPSHOTS && Named(k) && i < |w.pcs|
    ensures PulledRight(w, Step(w, Pull(i, v, republish, now)), i, republish, k,
                        Join(Status(w.pcs[i], k), Seen(w, v, k)), Seen(w, v, k))
  {
    Learnt(w, i, v, now, k);
    PullFromWrites(w, i, Merged(w, v).value, republish, now, k, Join(Status(w.pcs[i], k), Seen(w, v, k)));
  }

  /** A local change, and any action of a PC that does not exist, leaves the folder alone. */
  lemma LocalWritesNothing(w: World, a: Action)
    requires |w.pcs| == |w.snaps| && !a.RollBack? && (IsLocal(a) || a.pc >= |w.pcs|)
    ensures Step(w, a).canon == w.canon && Step(w, a).snaps == w.snaps
    ensures OthersStay(w, Step(w, a), a.pc)
  {
  }

  // ---------------------------------------------------------------- when the canonical file keeps a mark

  /** The canonical file now knows at least `x`. */
  ghost predicate CanonHas(w: World, k: Key, x: Mark) {
    Below(x, FileMark(Current(w.canon), k))
  }

  /** The action puts a canonical file in place that knows less than `x`: a rollback to a version that does, a push by
      a PC that neither knows `x` nor sees it in any file, or a republication by a pull that sees it in none. */
  ghost predicate Replaces(w: World, a: Action, k: Key, x: Mark)
    requires |w.pcs| == |w.snaps|
  {
    match a
    case RollBack(version) => !Below(x, FileMark(Version(w.canon, version), k))
    case Push(pc, v, reach, _) =>
      pc < |w.pcs| && !reach.ImportedOnly? && !Below(x, Status(w.pcs[pc], k)) && !Shown(w, v, k, x)
    case Pull(pc, v, republish, _) => pc < |w.pcs| && republish && !Shown(w, v, k, x)
    case _ => false
  }

  /** Only then, and always then, does the canonical file fall below what it knew. */
  lemma CanonFallsIff(w: World, a: Action, k: Key, x: Mark)
    requires GoodWorld(w) && |w.pcs| <= MAX_SNAPSHOTS && Named(k) && CanonHas(w, k, x)
    ensures CanonHas(Step(w, a), k, x) <==> !Replaces(w, a, k, x)
  {
    match a
    case RollBack(version) =>
    case Push(pc, v, reach, now) =>
      if pc < |w.pcs| {
        PushWrites(w, pc, v, reach, now, k);
        SeenIffShown(w, v, k, x);
      }
    case Pull(pc, v, republish, now) =>
      if pc < |w.pcs| {
        PullWrites(w, pc, v, republish, now, k);
        SeenIffShown(w, v, k, x);
      }
    case _ => LocalWritesNothing(w, a);
  }

  /** A writer that sees the current files never replaces the canonical file by less. */
  lemma FreshWriterKeeps(w: World, a: Action, k: Key, x: Mark)
    requires |w.pcs| == |w.snaps| && CanonHas(w, k, x)
    requires !a.RollBack? && (a.Push? || a.Pull? ==> a.view.Latest?)
    ensures !Replaces(w, a, k, x)
  {
  }

  ghost predicate ReplacesAt(w: World, acts: seq<Action>, k: Key, x: Mark, n: nat)
    requires |w.pcs| == |w.snaps| && n < |acts|
  {
    Replaces(Run(w, acts[..n]), acts[n], k, x)
  }

  ghost predicate CanonHasAt(w: World, acts: seq<Action>, k: Key, x: Mark, n: nat)
    requires |w.pcs| == |w.snaps| && n <= |acts|
  {
    CanonHas(Run(w, acts[..n]), k, x)
  }

  lemma RunStep(w: World, acts: seq<Action>, n: nat)
    requires |w.pcs| == |w.snaps| && n < |acts|
    ensures Run(w, acts[..n + 1]) == Step(Run(w, acts[..n]), acts[n])
  {
    assert acts[..n + 1][..n] == acts[..n];
  }

  lemma CanonStep(w: World, acts: seq<Action>, k: Key, x: Mark, n: nat)
    requires GoodWorld(w) && |w.pcs| <= MAX_SNAPSHOTS && Named(k) && n < |acts| && CanonHasAt(w, acts, k, x, n)
    ensures CanonHasAt(w, acts, k, x, n + 1) <==> !ReplacesAt(w, acts, k, x, n)
  {
    RunStep(w, acts, n);
    GoodRun(w, acts[..n]);
    CanonFallsIff(Run(w, acts[..n]), acts[n], k, x);
  }

  lemma {:induction false} CanonKept(w: World, acts: seq<Action>, k: Key, x: Mark, m: nat, n: nat)
    requires GoodWorld(w) && |w.pcs| <= MAX_SNAPSHOTS && Named(k) && m <= n <= |acts|
    requires CanonHasAt(w, acts, k, x, m)
    requires forall i :: m <= i < n ==> !ReplacesAt(w, acts, k, x, i)
    ensures CanonHasAt(w, acts, k, x, n)
  {
    if m < n {
      CanonKept(w, acts, k, x, m, n - 1);
      CanonStep(w, acts, k, x, n - 1);
    }
  }

  /** Once the canonical file knows a mark it knows it ever after, if and only if no later step replaces it: whatever
      clocks do, only a rollback or a writer that saw the mark nowhere takes it away. */
  lemma CanonKeptIff(w: World, acts: seq<Action>, k: Key, x: Mark, m: nat)
    requires GoodWorld(w) && |w.pcs| <= MAX_SNAPSHOTS && Named(k) && m <= |acts|
    requires CanonHasAt(w, acts, k, x, m)
    ensures (forall n :: m <= n <= |acts| ==> CanonHasAt(w, acts, k, x, n)) <==>
            (forall n :: m <= n < |acts| ==> !ReplacesAt(w, acts, k, x, n))
  {
    if forall n :: m <= n < |acts| ==> !ReplacesAt(w, acts, k, x, n) {
      forall n | m <= n <= |acts| ensures CanonHasAt(w, acts, k, x, n) { CanonKept(w, acts, k, x, m, n); }
    }
    if forall n :: m <= n <= |acts| ==> CanonHasAt(w, acts, k, x, n) {
      forall n | m <= n < |acts| ensures !ReplacesAt(w, acts, k, x, n) {
        assert CanonHasAt(w, acts, k, x, n) && CanonHasAt(w, acts, k, x, n + 1);
        CanonStep(w, acts, k, x, n);
      }
    }
  }

  /** Step `n` is a push of PC `i` that gets as far as the canonical file. */
  predicate ReachesCanon(acts: seq<Action>, n: nat, i: nat) {
    n < |acts| && acts[n].Push? && acts[n].pc == i && !acts[n].reach.ImportedOnly?
  }

  /** In every run: a push that reaches the canonical file leaves there, for every key, exactly what its PC knew and
      saw, and the file keeps it to the end if and only if no later step replaces it. */
  lemma PushReachesCanon(w: World, acts: seq<Action>, n: nat, i: nat, k: Key)
    requires GoodWorld(w) && |w.pcs| <= MAX_SNAPSHOTS && Named(k) && i < |w.pcs| && ReachesCanon(acts, n, i)
    ensures var mid := Run(w, acts[..n]);
      var known := Join(Status(mid.pcs[i], k), Seen(mid, acts[n].view, k));
      && Current(Run(w, acts[..n + 1]).canon).Some? && FileMark(Current(Run(w, acts[..n + 1]).canon), k) == known
      && ((forall m :: n < m <= |acts| ==> CanonHasAt(w, acts, k, known, m)) <==>
          (forall m :: n < m < |acts| ==> !ReplacesAt(w, acts, k, known, m)))
  {
    var mid := Run(w, acts[..n]);
    GoodRun(w, acts[..n]);
    PushWrites(mid, i, acts[n].view, acts[n].reach, acts[n].now, k);
    RunStep(w, acts, n);
    CanonKeptIff(w, acts, k, Join(Status(mid.pcs[i], k), Seen(mid, acts[n].view, k)), n + 1);
  }

  /** So after a run in which PC `i` got a push that far, and whose later writers all see the current files and nothing
      is rolled back, the canonical file knows all the PC started with and recorded before the push. */
  lemma PushedIsInCanon(w: World, acts: seq<Action>, n: nat, i: nat, k: Key)
    requires GoodWorld(w) && |w.pcs| <= MAX_SNAPSHOTS && Named(k) && i < |w.pcs|
    requires ClockedRun(w, acts, k) && ReachesCanon(acts, n, i)
    requires forall m :: n < m < |acts| ==>
      !acts[m].RollBack? && (acts[m].Push? || acts[m].Pull? ==> acts[m].view.Latest?)
    ensures CanonHas(Run(w, acts), k, RecordedBy(w, acts[..n], i, k))
  {
    ClockedPrefix(w, acts, n, k);
    StatusRun(w, acts[..n], i, k);
    PushReachesCanon(w, acts, n, i, k);
    FreshToEnd(w, acts, n + 1, |acts|, k, RecordedBy(w, acts[..n], i, k));
    assert acts[..|acts|] == acts;
  }

  lemma {:induction false} FreshToEnd(w: World, acts: seq<Action>, m: nat, n: nat, k: Key, x: Mark)
    requires GoodWorld(w) && |w.pcs| <= MAX_SNAPSHOTS && Named(k) && m <= n <= |acts|
    requires CanonHasAt(w, acts, k, x, m)
    requires forall i :: m <= i < n ==> !acts[i].RollBack? && (acts[i].Push? || acts[i].Pull? ==> acts[i].view.Latest?)
    ensures CanonHasAt(w, acts, k, x, n)
  {
    if m < n {
      FreshToEnd(w, acts, m, n - 1, k, x);
      FreshWriterKeeps(Run(w, acts[..n - 1]), acts[n - 1], k, x);
      CanonStep(w, acts, k, x, n - 1);
    }
  }
}
