/**
 Safety, retention and convergence of the shared-folder protocol.
 */
module ConvergenceProofs {
  import opened Wrappers
  import opened Lww
  import opened History
  import opened Replicas
  import opened Convergence

  // ---------------------------------------------------------------- exports

  lemma {:induction false} ListPostsMark(live: map<Key, Row>, k: Key)
    requires forall x :: x in live ==> Named(x) && live[x].at.At?
    ensures PostMarks(ListPosts(live), k) == if k in live then Live(Instant(live[k].at)) else Unknown
    ensures forall p :: p in ListPosts(live) ==> Named(p.key) && p.at.At?
    decreases |live|
  {
    if live != map[] {
      var x :| x in live &&
        ListPosts(live) == ListPosts(live - {x}) + [Post(x, live[x].site, live[x].title, live[x].at)];
      ListPostsMark(live - {x}, k);
      assert ListPosts(live)[..|ListPosts(live)| - 1] == ListPosts(live - {x});
    }
  }

  lemma {:induction false} ListTombsMark(dead: map<Key, nat>, k: Key)
    requires forall x :: x in dead ==> Named(x)
    ensures TombMarks(ListTombs(dead), k) == if k in dead then Dead(dead[k] + 1) else Unknown
    ensures forall d :: d in ListTombs(dead) ==> Named(d.key) && d.at.At?
    decreases |dead|
  {
    if dead != map[] {
      var x :| x in dead && ListTombs(dead) == ListTombs(dead - {x}) + [Tomb(x, At(dead[x]))];
      ListTombsMark(dead - {x}, k);
      assert ListTombs(dead)[..|ListTombs(dead)| - 1] == ListTombs(dead - {x});
    }
  }

  /** An exported payload carries exactly the status of its database. */
  lemma ExportMarks(t: Tables, k: Key)
    requires DatedTables(t)
    ensures Marks(Export(t), k) == Status(t, k)
    ensures DatedPayload(Export(t)) && ValidIdentities(Export(t))
  {
    ListPostsMark(t.live, k);
    ListTombsMark(t.dead, k);
    var p := Export(t);
    forall i | 0 <= i < |p.posts| ensures p.posts[i].at.At? && Named(p.posts[i].key) { assert p.posts[i] in p.posts; }
    forall i | 0 <= i < |p.tombs| ensures p.tombs[i].at.At? && Named(p.tombs[i].key) { assert p.tombs[i] in p.tombs; }
  }

  // ---------------------------------------------------------------- what a reader gets

  function FileMark(f: Option<Payload>, k: Key): Mark {
    if f.Some? then Marks(f.value, k) else Unknown
  }

  lemma {:induction false} PresentSnapsGood(w: World, v: View, n: nat)
    requires n <= |w.snaps|
    requires forall i :: 0 <= i < |w.snaps| ==> GoodFile(w.snaps[i])
    ensures forall j :: 0 <= j < |PresentSnaps(w, v, n)| ==>
      DatedPayload(PresentSnaps(w, v, n)[j]) && ValidIdentities(PresentSnaps(w, v, n)[j])
  {
    if n > 0 {
      PresentSnapsGood(w, v, n - 1);
      assert GoodFile(w.snaps[n - 1]);
    }
  }

  lemma PresentSnapsUnfold(w: World, v: View, n: nat, k: Key)
    requires 0 < n <= |w.snaps|
    ensures SnapshotMarks(PresentSnaps(w, v, n), k) ==
      Join(SnapshotMarks(PresentSnaps(w, v, n - 1), k), FileMark(SeenSnap(w, v, n - 1), k))
  {
    var s, init, all := SeenSnap(w, v, n - 1), PresentSnaps(w, v, n - 1), PresentSnaps(w, v, n);
    if s.Some? {
      assert all[..|all| - 1] == init && all[|all| - 1] == s.value;
    } else {
      assert all == init;
    }
  }

  lemma {:induction false} PresentSnapsAbove(w: World, v: View, n: nat, i: nat, k: Key)
    requires i < n <= |w.snaps|
    ensures Below(FileMark(SeenSnap(w, v, i), k), SnapshotMarks(PresentSnaps(w, v, n), k))
  {
    PresentSnapsUnfold(w, v, n, k);
    if i < n - 1 { PresentSnapsAbove(w, v, n - 1, i, k); }
  }

  lemma {:induction false} PresentSnapsBelow(w: World, v: View, n: nat, k: Key, m: Mark)
    requires n <= |w.snaps|
    requires forall i :: 0 <= i < n ==> Below(FileMark(SeenSnap(w, v, i), k), m)
    ensures Below(SnapshotMarks(PresentSnaps(w, v, n), k), m)
  {
    if n > 0 {
      PresentSnapsUnfold(w, v, n, k);
      PresentSnapsBelow(w, v, n - 1, k, m);
    }
  }

  /** The merge succeeds, and means the join of the canonical file and every snapshot seen. */
  lemma MergedIsJoin(w: World, v: View, k: Key)
    requires GoodWorld(w) && |w.pcs| <= MAX_SNAPSHOTS
    ensures Merged(w, v).Ok?
    ensures DatedPayload(Merged(w, v).value) && ValidIdentities(Merged(w, v).value)
    ensures Marks(Merged(w, v).value, k) ==
      Join(FileMark(SeenCanon(w, v), k), SnapshotMarks(PresentSnaps(w, v, |w.snaps|), k))
  {
    var snaps := PresentSnaps(w, v, |w.snaps|);
    PresentSnapsGood(w, v, |w.snaps|);
    var c := SeenCanon(w, v);
    assert GoodFile(w.canon);
    var base := if c.Some? then c.value else Payload([], []);
    if snaps != [] {
      GatherGood(base, snaps);
      ReconcileKeepsMarks(Gather(base, snaps), k);
      GatherMarks(base, snaps, k);
    }
  }

  lemma MergedAbove(w: World, v: View, i: nat, k: Key)
    requires GoodWorld(w) && |w.pcs| <= MAX_SNAPSHOTS && i < |w.pcs|
    ensures Merged(w, v).Ok?
    ensures Below(FileMark(SeenSnap(w, v, i), k), Marks(Merged(w, v).value, k))
  {
    MergedIsJoin(w, v, k);
    PresentSnapsAbove(w, v, |w.snaps|, i, k);
  }

  lemma MergedBelow(w: World, v: View, k: Key, m: Mark)
    requires GoodWorld(w) && |w.pcs| <= MAX_SNAPSHOTS && Bounded(w, k, m)
    ensures Merged(w, v).Ok?
    ensures Below(Marks(Merged(w, v).value, k), m)
  {
    MergedIsJoin(w, v, k);
    PresentSnapsBelow(w, v, |w.snaps|, k, m);
  }

  /** A PC absorbs what it sees: it keeps what it knew, learns the merged payload, and stays dated. */
  lemma AbsorbMerged(w: World, v: View, i: nat, now: nat, k: Key)
    requires GoodWorld(w) && |w.pcs| <= MAX_SNAPSHOTS && i < |w.pcs|
    ensures Merged(w, v).Ok?
    ensures DatedPayload(Merged(w, v).value) && ValidIdentities(Merged(w, v).value)
    ensures DatedTables(Absorb(w.pcs[i], Merged(w, v).value, now))
    ensures Named(k) ==>
      Status(Absorb(w.pcs[i], Merged(w, v).value, now), k) == Join(Status(w.pcs[i], k), Marks(Merged(w, v).value, k))
  {
    MergedIsJoin(w, v, k);
    AbsorbGood(w.pcs[i], Merged(w, v).value, now);
    if Named(k) { AbsorbIsJoin(w.pcs[i], Merged(w, v).value, now, k); }
  }

  // ---------------------------------------------------------------- every step keeps the files well formed

  lemma AbsorbGood(t: Tables, p: Payload, now: nat)
    requires DatedTables(t) && DatedPayload(p)
    ensures DatedTables(Absorb(t, p, now))
  {
    TombsKeepDates(t, p.tombs);
    PostsKeepDates(ImportTombs(t, p.tombs), p.posts, now);
  }

  lemma {:induction false} TombsKeepDates(t: Tables, ds: seq<Tomb>)
    requires DatedTables(t)
    ensures DatedTables(ImportTombs(t, ds))
  {
    if ds != [] {
      TombsKeepDates(t, ds[..|ds| - 1]);
      TombIsJoin(ImportTombs(t, ds[..|ds| - 1]), ds[|ds| - 1], Key("", ""));
    }
  }

  lemma {:induction false} PostsKeepDates(t: Tables, ps: seq<Post>, now: nat)
    requires DatedTables(t)
    ensures DatedTables(ImportPosts(t, ps, now))
  {
    if ps != [] {
      PostsKeepDates(t, ps[..|ps| - 1], now);
      PostIsJoin(ImportPosts(t, ps[..|ps| - 1], now), ps[|ps| - 1], now, Key("", ""));
    }
  }

  lemma {:induction false} MarksKeepDates(t: Tables, es: seq<MarkEntry>, now: nat)
    requires DatedTables(t)
    ensures DatedTables(MarkAll(t, es, now))
  {
    if es != [] {
      MarksKeepDates(t, es[..|es| - 1], now);
    }
  }

  lemma GoodAppend(f: File, p: Option<Payload>)
    requires GoodFile(f) && (p.Some? ==> DatedPayload(p.value) && ValidIdentities(p.value))
    ensures GoodFile(f + [p])
  {
  }

  lemma GoodPull(w: World, pc: nat, p: Payload, republish: bool, now: nat)
    requires GoodWorld(w) && pc < |w.pcs| && DatedPayload(p) && ValidIdentities(p) &&
      DatedTables(Absorb(w.pcs[pc], p, now))
    ensures GoodWorld(PullFrom(w, pc, p, republish, now))
  {
    GoodAppend(w.canon, Some(p));
  }

  lemma GoodPush(w: World, pc: nat, p: Payload, reach: Reach, now: nat)
    requires GoodWorld(w) && pc < |w.pcs| && DatedTables(Absorb(w.pcs[pc], p, now))
    ensures GoodWorld(PushTo(w, pc, p, reach, now))
  {
    var t := Absorb(w.pcs[pc], p, now);
    ExportMarks(t, Key("", ""));
    GoodAppend(w.canon, Some(Export(t)));
    GoodAppend(w.snaps[pc], Some(Export(t)));
  }

  lemma GoodStep(w: World, a: Action)
    requires GoodWorld(w) && |w.pcs| <= MAX_SNAPSHOTS
    ensures GoodWorld(Step(w, a))
  {
    var k0 := Key("", "");
    match a
    case LocalMark(pc, es, now) => if pc < |w.pcs| { MarksKeepDates(w.pcs[pc], es, now); }
    case LocalDelete(pc, url, now) =>
    case LocalClear(pc, now) =>
    case Pull(pc, view, republish, now) =>
      if pc < |w.pcs| {
        AbsorbMerged(w, view, pc, now, k0);
        GoodPull(w, pc, Merged(w, view).value, republish, now);
      }
    case Push(pc, view, reach, now) =>
      if pc < |w.pcs| {
        AbsorbMerged(w, view, pc, now, k0);
        GoodPush(w, pc, Merged(w, view).value, reach, now);
      }
    case RollBack(version) =>
      GoodAppend(w.canon, Version(w.canon, version));
  }

  // ---------------------------------------------------------------- nothing is invented

  /** Every database and every version of every file knows at most `m` about `k`. */
  ghost predicate Bounded(w: World, k: Key, m: Mark)
    requires |w.pcs| == |w.snaps|
  {
    && (forall i :: 0 <= i < |w.pcs| ==> Below(Status(w.pcs[i], k), m))
    && (forall v :: 0 <= v < |w.canon| ==> Below(FileMark(w.canon[v], k), m))
    && (forall i, v :: 0 <= i < |w.snaps| && 0 <= v < |w.snaps[i]| ==> Below(FileMark(w.snaps[i][v], k), m))
  }

  lemma BoundedAppend(f: File, p: Option<Payload>, k: Key, m: Mark)
    requires forall v :: 0 <= v < |f| ==> Below(FileMark(f[v], k), m)
    requires Below(FileMark(p, k), m)
    ensures forall v :: 0 <= v < |f + [p]| ==> Below(FileMark((f + [p])[v], k), m)
  {
  }

  lemma BoundedLocal(w: World, a: Action, k: Key, m: Mark)
    requires GoodWorld(w) && IsLocal(a) && Bounded(w, k, m)
    requires forall i :: 0 <= i < |w.pcs| ==> Below(LocalChange(w, a, i, k), m)
    ensures Bounded(Step(w, a), k, m)
  {
    if a.pc < |w.pcs| {
      assert Below(LocalChange(w, a, a.pc, k), m);
      if a.LocalMark? { MarkAllStatus(w.pcs[a.pc], a.entries, a.now, k); }
    }
  }

  lemma BoundedPull(w: World, pc: nat, p: Payload, republish: bool, now: nat, k: Key, m: Mark)
    requires |w.pcs| == |w.snaps| && pc < |w.pcs| && Bounded(w, k, m)
    requires Below(Marks(p, k), m) && Below(Status(Absorb(w.pcs[pc], p, now), k), m)
    ensures Bounded(PullFrom(w, pc, p, republish, now), k, m)
  {
    BoundedAppend(w.canon, Some(p), k, m);
  }

  lemma BoundedPush(w: World, pc: nat, p: Payload, reach: Reach, now: nat, k: Key, m: Mark)
    requires |w.pcs| == |w.snaps| && pc < |w.pcs| && Bounded(w, k, m)
    requires DatedTables(Absorb(w.pcs[pc], p, now)) && Below(Status(Absorb(w.pcs[pc], p, now), k), m)
    ensures Bounded(PushTo(w, pc, p, reach, now), k, m)
  {
    var t := Absorb(w.pcs[pc], p, now);
    ExportMarks(t, k);
    BoundedAppend(w.canon, Some(Export(t)), k, m);
    BoundedAppend(w.snaps[pc], Some(Export(t)), k, m);
  }

  lemma BoundedExchange(w: World, a: Action, k: Key, m: Mark)
    requires GoodWorld(w) && |w.pcs| <= MAX_SNAPSHOTS && Named(k)
    requires (a.Pull? || a.Push?) && a.pc < |w.pcs| && Bounded(w, k, m)
    ensures Bounded(Step(w, a), k, m)
  {
    MergedBelow(w, a.view, k, m);
    AbsorbMerged(w, a.view, a.pc, a.now, k);
    var p := Merged(w, a.view).value;
    assert Below(Status(Absorb(w.pcs[a.pc], p, a.now), k), m);
    if a.Pull? {
      BoundedPull(w, a.pc, p, a.republish, a.now, k, m);
    } else {
      BoundedPush(w, a.pc, p, a.reach, a.now, k, m);
    }
  }

  lemma BoundedStep(w: World, a: Action, k: Key, m: Mark)
    requires GoodWorld(w) && |w.pcs| <= MAX_SNAPSHOTS && Named(k)
    requires Bounded(w, k, m)
    requires forall i :: 0 <= i < |w.pcs| ==> Below(LocalChange(w, a, i, k), m)
    ensures Bounded(Step(w, a), k, m)
  {
    if IsLocal(a) {
      BoundedLocal(w, a, k, m);
    } else if a.RollBack? {
      BoundedAppend(w.canon, Version(w.canon, a.version), k, m);
    } else if a.pc < |w.pcs| {
      BoundedExchange(w, a, k, m);
    }
  }

  // ---------------------------------------------------------------- nothing is lost

  /** No step lowers what a database knows, and a local change is kept by the PC that makes it. */
  lemma StatusRises(w: World, a: Action, i: nat, k: Key)
    requires GoodWorld(w) && |w.pcs| <= MAX_SNAPSHOTS && Named(k) && i < |w.pcs|
    requires Clocked(w, a, k)
    ensures Below(Join(Status(w.pcs[i], k), LocalChange(w, a, i, k)), Status(Step(w, a).pcs[i], k))
  {
    match a
    case LocalMark(pc, es, now) =>
      if pc == i { MarkAllStatus(w.pcs[pc], es, now, k); }
    case LocalDelete(pc, url, now) =>
    case LocalClear(pc, now) =>
    case Pull(pc, view, republish, now) => if pc < |w.pcs| { AbsorbMerged(w, view, pc, now, k); }
    case Push(pc, view, reach, now) => if pc < |w.pcs| { AbsorbMerged(w, view, pc, now, k); }
    case RollBack(version) =>
  }

  /** PC `i` and its published snapshot both know at least `x` about `k`. */
  ghost predicate Kept(w: World, i: nat, k: Key, x: Mark)
    requires i < |w.pcs| == |w.snaps|
  {
    Below(x, Status(w.pcs[i], k)) && Below(x, FileMark(Current(w.snaps[i]), k))
  }

  lemma PushedFiles(w: World, i: nat, p: Payload, now: nat)
    requires i < |w.pcs| == |w.snaps|
    ensures var t, next := Absorb(w.pcs[i], p, now), PushTo(w, i, p, Published, now);
      |next.pcs| == |next.snaps| == |w.pcs| && next.pcs[i] == t && Current(next.snaps[i]) == Some(Export(t))
  {
  }

  lemma PushPublishes(w: World, i: nat, view: View, now: nat, k: Key)
    requires GoodWorld(w) && |w.pcs| <= MAX_SNAPSHOTS && Named(k) && i < |w.pcs|
    ensures Kept(Step(w, Push(i, view, Published, now)), i, k, Status(w.pcs[i], k))
  {
    AbsorbMerged(w, view, i, now, k);
    var t := Absorb(w.pcs[i], Merged(w, view).value, now);
    ExportMarks(t, k);
    PushedFiles(w, i, Merged(w, view).value, now);
    assert Step(w, Push(i, view, Published, now)) == PushTo(w, i, Merged(w, view).value, Published, now);
  }

  lemma KeptStep(w: World, a: Action, i: nat, k: Key, x: Mark)
    requires GoodWorld(w) && |w.pcs| <= MAX_SNAPSHOTS && Named(k) && i < |w.pcs|
    requires Clocked(w, a, k) && Kept(w, i, k, x)
    ensures Kept(Step(w, a), i, k, x)
  {
    StatusRises(w, a, i, k);
    if a.Push? && a.pc == i {
      PushPublishes(w, i, a.view, a.now, k);
      if a.reach != Published { assert Step(w, a).snaps == w.snaps; }
    }
  }

  // ---------------------------------------------------------------- whole runs

  lemma {:induction false} GoodRun(w: World, acts: seq<Action>)
    requires GoodWorld(w) && |w.pcs| <= MAX_SNAPSHOTS
    ensures GoodWorld(Run(w, acts))
  {
    if acts != [] {
      GoodRun(w, acts[..|acts| - 1]);
      GoodStep(Run(w, acts[..|acts| - 1]), acts[|acts| - 1]);
    }
  }

  lemma {:induction false} RunConcat(w: World, xs: seq<Action>, ys: seq<Action>)
    requires |w.pcs| == |w.snaps|
    ensures Run(w, xs + ys) == Run(Run(w, xs), ys)
  {
    if ys == [] {
      assert xs + ys == xs;
    } else {
      assert (xs + ys)[..|xs + ys| - 1] == xs + ys[..|ys| - 1];
      RunConcat(w, xs, ys[..|ys| - 1]);
    }
  }

  lemma ClockedPrefix(w: World, acts: seq<Action>, n: nat, k: Key)
    requires |w.pcs| == |w.snaps| && n <= |acts| && ClockedRun(w, acts, k)
    ensures ClockedRun(w, acts[..n], k)
  {
    forall m | 0 <= m < n ensures ClockedAt(w, acts[..n], k, m) {
      assert acts[..n][..m] == acts[..m] && ClockedAt(w, acts, k, m);
    }
  }

  lemma ClockedSuffix(w: World, xs: seq<Action>, ys: seq<Action>, k: Key)
    requires |w.pcs| == |w.snaps| && ClockedRun(w, xs + ys, k)
    ensures ClockedRun(Run(w, xs), ys, k)
  {
    forall m | 0 <= m < |ys| ensures ClockedAt(Run(w, xs), ys, k, m) {
      RunConcat(w, xs, ys[..m]);
      assert ClockedAt(w, xs + ys, k, |xs| + m);
      assert (xs + ys)[..|xs| + m] == xs + ys[..m] && (xs + ys)[|xs| + m] == ys[m];
    }
  }

  lemma {:induction false} KeptRun(w: World, acts: seq<Action>, i: nat, k: Key, x: Mark)
    requires GoodWorld(w) && |w.pcs| <= MAX_SNAPSHOTS && Named(k) && i < |w.pcs|
    requires ClockedRun(w, acts, k) && Kept(w, i, k, x)
    ensures Kept(Run(w, acts), i, k, x)
  {
    if acts != [] {
      var init := acts[..|acts| - 1];
      ClockedPrefix(w, acts, |acts| - 1, k);
      assert ClockedAt(w, acts, k, |acts| - 1);
      KeptRun(w, init, i, k, x);
      GoodRun(w, init);
      KeptStep(Run(w, init), acts[|acts| - 1], i, k, x);
    }
  }

  lemma {:induction false} StatusRun(w: World, acts: seq<Action>, i: nat, k: Key)
    requires GoodWorld(w) && |w.pcs| <= MAX_SNAPSHOTS && Named(k) && i < |w.pcs|
    requires ClockedRun(w, acts, k)
    ensures Below(RecordedBy(w, acts, i, k), Status(Run(w, acts).pcs[i], k))
    ensures Below(Status(w.pcs[i], k), Status(Run(w, acts).pcs[i], k))
  {
    if acts != [] {
      var init := acts[..|acts| - 1];
      ClockedPrefix(w, acts, |acts| - 1, k);
      assert ClockedAt(w, acts, k, |acts| - 1);
      StatusRun(w, init, i, k);
      GoodRun(w, init);
      StatusRises(Run(w, init), acts[|acts| - 1], i, k);
    }
  }

  lemma {:induction false} RecordedBound(w: World, acts: seq<Action>, n: nat, k: Key, m: Mark)
    requires n <= |w.pcs| == |w.snaps|
    ensures forall i :: 0 <= i < n ==> Below(RecordedBy(w, acts, i, k), RecordedUpTo(w, acts, n, k))
    ensures (forall i :: 0 <= i < n ==> Below(RecordedBy(w, acts, i, k), m)) ==> Below(RecordedUpTo(w, acts, n, k), m)
  {
    if n > 0 { RecordedBound(w, acts, n - 1, k, m); }
  }

  /** Safety over every run: no database and no version of any file ever knows more about a key than
      the join of everything the PCs started with and recorded. */
  lemma {:induction false} NothingInvented(w: World, acts: seq<Action>, k: Key)
    requires Start(w) && Named(k)
    ensures Bounded(Run(w, acts), k, Recorded(w, acts, k))
  {
    var m := Recorded(w, acts, k);
    RecordedBound(w, acts, |w.pcs|, k, m);
    if acts == [] {
      forall i | 0 <= i < |w.pcs| ensures Below(Status(w.pcs[i], k), m) {
        assert Below(RecordedBy(w, acts, i, k), m);
      }
    } else {
      var init, a := acts[..|acts| - 1], acts[|acts| - 1];
      NothingInvented(w, init, k);
      GoodRun(w, init);
      RecordedBound(w, init, |w.pcs|, k, m);
      forall i | 0 <= i < |w.pcs|
        ensures Below(RecordedBy(w, init, i, k), m) && Below(LocalChange(Run(w, init), a, i, k), m)
      {
        assert Below(RecordedBy(w, acts, i, k), m);
      }
      BoundedStep(Run(w, init), a, k, m);
    }
  }

  ghost predicate Quiet(acts: seq<Action>) {
    forall n :: 0 <= n < |acts| ==> !IsLocal(acts[n])
  }

  lemma {:induction false} QuietRecordsNothing(w: World, xs: seq<Action>, ys: seq<Action>, i: nat, k: Key)
    requires i < |w.pcs| == |w.snaps| && Quiet(ys)
    ensures RecordedBy(w, xs + ys, i, k) == RecordedBy(w, xs, i, k)
  {
    if ys == [] {
      assert xs + ys == xs;
    } else {
      assert (xs + ys)[..|xs + ys| - 1] == xs + ys[..|ys| - 1];
      QuietRecordsNothing(w, xs, ys[..|ys| - 1], i, k);
      assert !IsLocal(ys[|ys| - 1]);
    }
  }

  lemma {:induction false} UpToCongruent(w: World, xs: seq<Action>, ys: seq<Action>, n: nat, k: Key)
    requires n <= |w.pcs| == |w.snaps|
    requires forall i :: 0 <= i < n ==> RecordedBy(w, xs, i, k) == RecordedBy(w, ys, i, k)
    ensures RecordedUpTo(w, xs, n, k) == RecordedUpTo(w, ys, n, k)
  {
    if n > 0 { UpToCongruent(w, xs, ys, n - 1, k); }
  }

  lemma QuietRecordedUpTo(w: World, xs: seq<Action>, ys: seq<Action>, n: nat, k: Key)
    requires n <= |w.pcs| == |w.snaps| && Quiet(ys)
    ensures RecordedUpTo(w, xs + ys, n, k) == RecordedUpTo(w, xs, n, k)
  {
    forall i | 0 <= i < n ensures RecordedBy(w, xs + ys, i, k) == RecordedBy(w, xs, i, k) {
      QuietRecordsNothing(w, xs, ys, i, k);
    }
    UpToCongruent(w, xs + ys, xs, n, k);
  }

  predicate CompletePush(a: Action, i: nat) {
    a.Push? && a.pc == i && a.reach.Published?
  }

  /** A pull, or the import half of a push, that sees the current files. */
  predicate FreshRead(a: Action, j: nat) {
    (a.Pull? || a.Push?) && a.pc == j && a.view.Latest?
  }

  ghost predicate Pushed(acts: seq<Action>, i: nat) {
    exists n :: 0 <= n < |acts| && CompletePush(acts[n], i)
  }

  ghost predicate ReadBy(acts: seq<Action>, j: nat) {
    exists n :: 0 <= n < |acts| && FreshRead(acts[n], j)
  }

  /** Splitting a run at one of its actions. */
  lemma SplitAt(w: World, acts: seq<Action>, n: nat, k: Key)
    requires GoodWorld(w) && |w.pcs| <= MAX_SNAPSHOTS && n < |acts| && ClockedRun(w, acts, k)
    ensures var mid := Run(w, acts[..n]);
      GoodWorld(mid) && |mid.pcs| == |w.pcs| && ClockedRun(w, acts[..n], k) && Clocked(mid, acts[n], k)
      && GoodWorld(Step(mid, acts[n])) && ClockedRun(Step(mid, acts[n]), acts[n + 1..], k)
      && Run(w, acts) == Run(Step(mid, acts[n]), acts[n + 1..])
  {
    var upTo := acts[..n + 1];
    assert acts == upTo + acts[n + 1..] && upTo[..n] == acts[..n];
    ClockedPrefix(w, acts, n, k);
    assert ClockedAt(w, acts, k, n);
    GoodRun(w, acts[..n]);
    GoodRun(w, upTo);
    assert Run(w, upTo) == Step(Run(w, acts[..n]), acts[n]);
    ClockedSuffix(w, upTo, acts[n + 1..], k);
    RunConcat(w, upTo, acts[n + 1..]);
  }

  /** After a run in which PC `i` completed a push, the folder keeps what PC `i` knew before it. */
  lemma PushedIsKept(w: World, acts: seq<Action>, i: nat, k: Key, x: Mark)
    requires GoodWorld(w) && |w.pcs| <= MAX_SNAPSHOTS && Named(k) && i < |w.pcs|
    requires ClockedRun(w, acts, k) && Below(x, Status(w.pcs[i], k))
    requires Pushed(acts, i)
    ensures Kept(Run(w, acts), i, k, x)
  {
    var n :| 0 <= n < |acts| && CompletePush(acts[n], i);
    SplitAt(w, acts, n, k);
    StatusRun(w, acts[..n], i, k);
    var mid := Run(w, acts[..n]);
    PushPublishes(mid, i, acts[n].view, acts[n].now, k);
    assert acts[n] == Push(i, acts[n].view, Published, acts[n].now);
    KeptRun(Step(mid, acts[n]), acts[n + 1..], i, k, x);
  }

  /** After a run in which PC `j` read the current folder, it knows what every snapshot held before. */
  lemma ReadIsLearnt(w: World, acts: seq<Action>, i: nat, j: nat, k: Key, x: Mark)
    requires GoodWorld(w) && |w.pcs| <= MAX_SNAPSHOTS && Named(k) && i < |w.pcs| && j < |w.pcs|
    requires ClockedRun(w, acts, k) && Kept(w, i, k, x)
    requires ReadBy(acts, j)
    ensures Below(x, Status(Run(w, acts).pcs[j], k))
  {
    var n :| 0 <= n < |acts| && FreshRead(acts[n], j);
    SplitAt(w, acts, n, k);
    KeptRun(w, acts[..n], i, k, x);
    var mid := Run(w, acts[..n]);
    MergedAbove(mid, Latest, i, k);
    AbsorbMerged(mid, Latest, j, acts[n].now, k);
    assert SeenSnap(mid, Latest, i) == Current(mid.snaps[i]);
    StatusRun(Step(mid, acts[n]), acts[n + 1..], j, k);
  }

  /** A run in three phases. */
  lemma ThreePhases(w: World, a: seq<Action>, b: seq<Action>, c: seq<Action>, k: Key)
    requires GoodWorld(w) && |w.pcs| <= MAX_SNAPSHOTS && ClockedRun(w, a + b + c, k)
    ensures GoodWorld(Run(w, a)) && GoodWorld(Run(w, a + b))
    ensures ClockedRun(w, a, k) && ClockedRun(Run(w, a), b, k) && ClockedRun(Run(w, a + b), c, k)
    ensures Run(w, a + b) == Run(Run(w, a), b) && Run(w, a + b + c) == Run(Run(w, a + b), c)
  {
    RunConcat(w, a, b);
    RunConcat(w, a + b, c);
    GoodRun(w, a);
    GoodRun(w, a + b);
    ClockedPrefix(w, a + b + c, |a + b|, k);
    assert (a + b + c)[..|a + b|] == a + b;
    ClockedPrefix(w, a + b, |a|, k);
    assert (a + b)[..|a|] == a;
    ClockedSuffix(w, a, b, k);
    ClockedSuffix(w, a + b, c, k);
  }

  /** What PC `i` recorded in the first phase reaches PC `j` by the end. */
  lemma ReachesPc(w: World, a: seq<Action>, b: seq<Action>, c: seq<Action>, i: nat, j: nat, k: Key)
    requires Start(w) && Named(k) && i < |w.pcs| && j < |w.pcs|
    requires ClockedRun(w, a + b + c, k)
    requires Pushed(b, i) && ReadBy(c, j)
    ensures Below(RecordedBy(w, a, i, k), Status(Run(w, a + b + c).pcs[j], k))
  {
    ThreePhases(w, a, b, c, k);
    StatusRun(w, a, i, k);
    PushedIsKept(Run(w, a), b, i, k, RecordedBy(w, a, i, k));
    ReadIsLearnt(Run(w, a + b), c, i, j, k, RecordedBy(w, a, i, k));
  }

  lemma NoMoreThanRecorded(w: World, a: seq<Action>, q: seq<Action>, j: nat, k: Key)
    requires Start(w) && Named(k) && j < |w.pcs| && Quiet(q)
    ensures Below(Status(Run(w, a + q).pcs[j], k), Recorded(w, a, k))
  {
    NothingInvented(w, a + q, k);
    QuietRecordedUpTo(w, a, q, |w.pcs|, k);
  }

  lemma NoLessThanRecorded(w: World, a: seq<Action>, b: seq<Action>, c: seq<Action>, j: nat, k: Key)
    requires Start(w) && Named(k) && j < |w.pcs|
    requires ClockedRun(w, a + b + c, k)
    requires forall i :: 0 <= i < |w.pcs| ==> Pushed(b, i)
    requires ReadBy(c, j)
    ensures Below(Recorded(w, a, k), Status(Run(w, a + b + c).pcs[j], k))
  {
    var s := Status(Run(w, a + b + c).pcs[j], k);
    forall i | 0 <= i < |w.pcs| ensures Below(RecordedBy(w, a, i, k), s) {
      ReachesPc(w, a, b, c, i, j, k);
    }
    RecordedBound(w, a, |w.pcs|, k, s);
  }

  /** Convergence: after any run `a` - local changes, pushes interrupted anywhere, pulls through stale
      views, rollbacks of the canonical file - if local changes stop, every PC then completes a push
      (during `b`) and PC `j` afterwards reads the current folder (during `c`), the database of
      PC `j` holds for every key exactly the join of everything recorded, whatever else
      `b` and `c` contain. */
  lemma Converges(w: World, a: seq<Action>, b: seq<Action>, c: seq<Action>, j: nat, k: Key)
    requires Start(w) && Named(k) && j < |w.pcs|
    requires ClockedRun(w, a + b + c, k)
    requires Quiet(b) && Quiet(c)
    requires forall i :: 0 <= i < |w.pcs| ==> Pushed(b, i)
    requires ReadBy(c, j)
    ensures Status(Run(w, a + b + c).pcs[j], k) == Recorded(w, a, k)
  {
    NoLessThanRecorded(w, a, b, c, j, k);
    assert a + b + c == a + (b + c);
    NoMoreThanRecorded(w, a, b + c, j, k);
    BelowAntisymmetric(Status(Run(w, a + b + c).pcs[j], k), Recorded(w, a, k));
  }

  /** All databases agree. */
  lemma AllAgree(w: World, a: seq<Action>, b: seq<Action>, c: seq<Action>, i: nat, j: nat, k: Key)
    requires Start(w) && Named(k) && i < |w.pcs| && j < |w.pcs|
    requires ClockedRun(w, a + b + c, k) && Quiet(b) && Quiet(c)
    requires forall p :: 0 <= p < |w.pcs| ==> Pushed(b, p)
    requires ReadBy(c, i) && ReadBy(c, j)
    ensures Status(Run(w, a + b + c).pcs[i], k) == Status(Run(w, a + b + c).pcs[j], k)
  {
    Converges(w, a, b, c, i, k);
    Converges(w, a, b, c, j, k);
  }

  lemma {:induction false} MorePresent(w: World, v: World, n: nat)
    requires n <= |w.snaps| == |v.snaps|
    requires forall i :: 0 <= i < n && Current(w.snaps[i]).Some? ==> Current(v.snaps[i]).Some?
    ensures |PresentSnaps(w, Latest, n)| <= |PresentSnaps(v, Latest, n)|
  {
    if n > 0 { MorePresent(w, v, n - 1); }
  }

  lemma SnapshotStays(w: World, a: Action, i: nat)
    requires i < |w.pcs| == |w.snaps| && Current(w.snaps[i]).Some?
    ensures Current(Step(w, a).snaps[i]).Some?
  {
  }

  lemma {:induction false} SnapshotsStay(w: World, acts: seq<Action>)
    requires |w.pcs| == |w.snaps|
    ensures |PresentSnaps(w, Latest, |w.snaps|)| <= |PresentSnaps(Run(w, acts), Latest, |w.snaps|)|
  {
    if acts != [] {
      var before, a := Run(w, acts[..|acts| - 1]), acts[|acts| - 1];
      SnapshotsStay(w, acts[..|acts| - 1]);
      forall i | 0 <= i < |w.snaps| && Current(before.snaps[i]).Some? ensures Current(Step(before, a).snaps[i]).Some? {
        SnapshotStays(before, a, i);
      }
      MorePresent(before, Step(before, a), |w.snaps|);
    }
  }

  /** A merge of too many snapshots is refused, and the pull or push changes nothing. */
  lemma RefusedChangesNothing(w: World, a: Action)
    requires |w.pcs| == |w.snaps| && (a.Pull? || a.Push?)
    requires |PresentSnaps(w, a.view, |w.snaps|)| > MAX_SNAPSHOTS
    ensures Step(w, a) == w
  {
  }

  /** One snapshot too many and the folder is dead for good: whatever happens from then on, no pull and no push that
      sees the current files changes anything any more, because no step takes a snapshot away. */
  lemma TooManySnapshotsStopTheFolder(w: World, acts: seq<Action>, a: Action)
    requires |w.pcs| == |w.snaps| && (a.Pull? || a.Push?) && a.view.Latest?
    requires |PresentSnaps(w, Latest, |w.snaps|)| > MAX_SNAPSHOTS
    ensures Step(Run(w, acts), a) == Run(w, acts)
  {
    SnapshotsStay(w, acts);
    RefusedChangesNothing(Run(w, acts), a);
  }

  /** A clock that has fallen behind breaks convergence at once: the deletion held by this PC was
      recorded later than the delivery that replaces it, so the database forgets it. */
  lemma ClockBehindForgets(k: Key)
    requires Named(k)
    ensures var w := World([Tables(map[], map[k := 5])], [None], [[None]]);
      var a := LocalMark(0, [MarkEntry(k, "", "")], 3);
      Start(w) && !ClockedRun(w, [a], k)
      && !Below(Recorded(w, [a], k), Status(Run(w, [a]).pcs[0], k))
  {
    var w := World([Tables(map[], map[k := 5])], [None], [[None]]);
    var es := [MarkEntry(k, "", "")];
    var a := LocalMark(0, es, 3);
    assert [a][..0] == [] && es[..0] == [];
    assert es[0].key == k;
    MarkAllStatus(w.pcs[0], es, 3, k);
    assert Run(w, [a]) == Step(w, a);
    assert Run(w, [a]).pcs[0] == MarkAll(w.pcs[0], es, 3);
    assert Status(Run(w, [a]).pcs[0], k) == Live(4);
    assert RecordedBy(w, [a], 0, k) == Join(Dead(6), Live(4));
    assert RecordedUpTo(w, [a], 1, k) == Join(RecordedUpTo(w, [a], 0, k), RecordedBy(w, [a], 0, k));
    assert !ClockedAt(w, [a], k, 0);
  }
}
