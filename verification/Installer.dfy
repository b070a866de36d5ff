/**
 Replacing the installed executable: two moves, a smoke check and a rollback, on a machine that may
 refuse moves and may stop at any point.
 */
module Installer {
  import opened Wrappers

  /** An executable; equal values are equal files. */
  datatype Exe = Exe(content: nat, version: nat)

  const REPLACE_ATTEMPTS := 50

  /** What one attempt to move a file meets: success, a permission error, or any other error. */
  datatype Attempt = Done | Locked | Broken

  datatype MoveResult = DidMove | StillLocked | Failed

  /** Attempt `i` is the first that meets no permission error. */
  ghost predicate Decides(attempts: seq<Attempt>, i: nat) {
    i < |attempts| && attempts[i] != Locked && forall j :: 0 <= j < i ==> attempts[j] == Locked
  }

  /** `_replace_with_retry`: a permission error is tried again, any other error is raised at once. */
  method ReplaceWithRetry(attempts: seq<Attempt>) returns (r: MoveResult)
    requires |attempts| == REPLACE_ATTEMPTS
    ensures r == DidMove <==> exists i: nat :: Decides(attempts, i) && attempts[i] == Done
    ensures r == Failed <==> exists i: nat :: Decides(attempts, i) && attempts[i] == Broken
    ensures r == StillLocked <==> forall i :: 0 <= i < |attempts| ==> attempts[i] == Locked
  {
    for i := 0 to REPLACE_ATTEMPTS
      invariant forall j :: 0 <= j < i ==> attempts[j] == Locked
    {
      if attempts[i] != Locked {
        assert Decides(attempts, i) && forall j: nat :: Decides(attempts, j) ==> j == i;
        return if attempts[i] == Done then DidMove else Failed;
      }
    }
    return StillLocked;
  }

  // ---------------------------------------------------------------- one uninterrupted run

  /** What the manifest promises of the new executable: its size and its hash. */
  datatype Expectation = Expectation(size: Option<nat>, sha: Option<nat>)

  predicate Matches(size: nat, sha: nat, want: Expectation) {
    (want.size.None? || want.size.value == size) && (want.sha.None? || want.sha.value == sha)
  }

  /** Which of the moves and checks succeed. */
  datatype Faults = Faults(recovers: bool, first: bool, second: bool, smoke: bool, rollback: bool)

  datatype Outcome = Installed | Refused | NotChanged | RolledBack | RollbackFailed

  /** The executable a run starts from: the installed one or, after an interrupted run, the backup. */
  function Home(target: Option<Exe>, backup: Option<Exe>): Option<Exe> {
    if target.Some? then target else backup
  }

  /** The run gets as far as the first move: the backup could be put back if it had to, and there is an executable and
      a staged file that keeps the manifest's promise. */
  predicate Ready(target: Option<Exe>, staged: Option<Exe>, backup: Option<Exe>, size: nat, sha: nat,
          want: Expectation, f: Faults) {
    && (target.Some? || backup.None? || f.recovers) && Home(target, backup).Some?
    && staged.Some? && Matches(size, sha, want)
  }

  class Folder {
    var target: Option<Exe>
    var staged: Option<Exe>
    var backup: Option<Exe>

    constructor (t: Option<Exe>, s: Option<Exe>, b: Option<Exe>)
      ensures target == t && staged == s && backup == b
    {
      target, staged, backup := t, s, b;
    }

    /** `size` and `sha` are those of the staged file.  Each outcome comes exactly when it should, and each says where
        every file is afterwards. */
    method ApplyStagedUpdate(size: nat, sha: nat, want: Expectation, f: Faults) returns (r: Outcome)
      modifies this
      ensures var ready := Ready(old(target), old(staged), old(backup), size, sha, want, f);
        && (r == Refused <==> !ready)
        && (r == NotChanged <==> ready && !f.first)
        && (r == Installed <==> ready && f.first && f.second && f.smoke)
        && (r == RolledBack <==> ready && f.first && !(f.second && f.smoke) && f.rollback)
        && (r == RollbackFailed <==> ready && f.first && !(f.second && f.smoke) && !f.rollback)
      ensures var home := Home(old(target), old(backup));
        match r
        case Refused =>
          staged == old(staged) &&
          if old(target).Some? || !f.recovers then target == old(target) && backup == old(backup)
          else target == home && backup == None
        case NotChanged =>
          staged == old(staged) && target == home && backup == if old(target).Some? then old(backup) else None
        case Installed => target == old(staged) && staged == None && backup == home
        case RolledBack => target == home && backup == None && staged == if f.second then None else old(staged)
        case RollbackFailed =>
          backup == home && if f.second then target == old(staged) && staged == None
              else target == None && staged == old(staged)
    {
      if target.None? && backup.Some? {
        if !f.recovers { return Refused; }
        target, backup := backup, None;
      }
      if target.None? || staged.None? { return Refused; }
      if !Matches(size, sha, want) { return Refused; }
      if !f.first { return NotChanged; }
      target, backup := None, target;
      if f.second {
        target, staged := staged, None;
        if f.smoke { return Installed; }
      }
      if !f.rollback { return RollbackFailed; }
      target, backup := backup, None;
      return RolledBack;
    }
  }

  // ---------------------------------------------------------------- runs with crashes

  datatype Stage = Out | Begun | Recovered | Checked | Moved | Replaced | RollingBack

  /** The install folder: backups by the version in their name, `keep` the executable that last passed its
      check, `slot` the backup name of the run under way. */
  datatype World = World(target: Option<Exe>, backups: map<nat, Exe>, staged: Option<Exe>, stage: Stage, slot: nat,
      keep: Exe)

  datatype Action =
    | Download(exe: Exe)
    | Start(slot: nat)
    | Recover(ok: bool)
    | Check(ok: bool)
    | First(ok: bool)
    | Second(ok: bool)
    | Smoke(ok: bool, kept: set<nat>)
    | Rollback(ok: bool)
    | Crash

  predicate Enabled(w: World, a: Action) {
    match a
    case Download(_) => w.stage == Out
    case Start(_) => w.stage == Out
    case Recover(_) => w.stage == Begun
    case Check(_) => w.stage == Recovered
    case First(_) => w.stage == Checked && w.target.Some?
    case Second(_) => w.stage == Moved && w.staged.Some?
    case Smoke(_, _) => w.stage == Replaced && w.target.Some?
    case Rollback(_) => w.stage == RollingBack
    case Crash => true
  }

  function Restrict(m: map<nat, Exe>, s: set<nat>): map<nat, Exe> {
    map k | k in m && k in s :: m[k]
  }

  function Next(w: World, a: Action): World
    requires Enabled(w, a)
  {
    match a
    case Download(exe) => w.(staged := Some(exe))
    case Start(slot) => w.(stage := Begun, slot := slot)
    case Recover(ok) =>
      if w.target.Some? || w.slot !in w.backups then w.(stage := Recovered)
      else if ok then w.(target := Some(w.backups[w.slot]), backups := w.backups - {w.slot}, stage := Recovered)
      else w.(stage := Out)
    case Check(ok) => if ok && w.target.Some? && w.staged.Some? then w.(stage := Checked) else w.(stage := Out)
    case First(ok) =>
      if ok then w.(target := None, backups := w.backups[w.slot := w.target.value], stage := Moved)
          else w.(stage := Out)
    case Second(ok) =>
      if ok then w.(target := w.staged, staged := None, stage := Replaced) else w.(stage := RollingBack)
    case Smoke(ok, kept) =>
      // Old backups are cleaned up only after the check passed.
      if ok then w.(keep := w.target.value, backups := Restrict(w.backups, kept), stage := Out)
          else w.(stage := RollingBack)
    case Rollback(ok) =>
      if ok && w.slot in w.backups then
          w.(target := Some(w.backups[w.slot]), backups := w.backups - {w.slot}, stage := Out)
      else w.(stage := Out)
    case Crash => w.(stage := Out)
  }

  predicate InBackup(w: World) {
    exists b :: b in w.backups && w.backups[b] == w.keep
  }

  /** The executable that last passed its check is installed or in a backup. */
  predicate Intact(w: World) {
    w.target == Some(w.keep) || InBackup(w)
  }

  /** The first move is about to put an unverified executable over the only good copy. */
  predicate Overwrites(w: World, a: Action) {
    && a == First(true) && Enabled(w, a) && w.target != Some(w.keep)
    && forall b :: b in w.backups && w.backups[b] == w.keep ==> b == w.slot
  }

  predicate Inv(w: World) {
    && Intact(w)
    && (w.stage == Moved ==> w.target == None)
    && (w.stage == Moved || w.stage == Replaced || w.stage == RollingBack ==> InBackup(w))
  }

  lemma StepKeeps(w: World, a: Action)
    requires Inv(w) && Enabled(w, a) && !Overwrites(w, a)
    ensures Inv(Next(w, a))
  {
    var n := Next(w, a);
    if InBackup(w) {
      var b :| b in w.backups && w.backups[b] == w.keep &&
          (Overwrites(w, a) || a != First(true) || w.target == Some(w.keep) || b != w.slot);
      if b in n.backups { assert n.backups[b] == w.backups[b] || b == w.slot; }
    }
    if a == First(true) && w.target == Some(w.keep) { assert n.backups[w.slot] == n.keep; }
  }

  lemma OverwriteLoses(w: World, a: Action)
    requires Enabled(w, a) && Overwrites(w, a)
    ensures !Intact(Next(w, a))
  {
  }

  ghost predicate StepAt(ws: seq<World>, acts: seq<Action>, i: nat)
    requires |ws| == |acts| + 1 && i < |acts|
  {
    Enabled(ws[i], acts[i]) && ws[i + 1] == Next(ws[i], acts[i])
  }

  /** Any number of updates, failures and crashes, from a verified installed executable. */
  ghost predicate Run(ws: seq<World>, acts: seq<Action>) {
    && |ws| == |acts| + 1 && ws[0].stage == Out && ws[0].target == Some(ws[0].keep)
    && forall i {:trigger StepAt(ws, acts, i)} :: 0 <= i < |acts| ==> StepAt(ws, acts, i)
  }

  lemma {:induction false} RunKeeps(ws: seq<World>, acts: seq<Action>, n: nat)
    requires Run(ws, acts) && n <= |acts| && forall i :: 0 <= i < n ==> !Overwrites(ws[i], acts[i])
    ensures Inv(ws[n])
  {
    if n > 0 {
      RunKeeps(ws, acts, n - 1);
      assert StepAt(ws, acts, n - 1);
      StepKeeps(ws[n - 1], acts[n - 1]);
    }
  }

  /** Crash safety, exactly: over any number of runs the last good executable stays at the target or in a backup
      if and only if no run moves an unverified target over its only backup. */
  lemma GoodExecutableKeptIff(ws: seq<World>, acts: seq<Action>)
    requires Run(ws, acts)
    ensures (forall i :: 0 <= i < |ws| ==> Intact(ws[i])) <==>
        (forall i :: 0 <= i < |acts| ==> !Overwrites(ws[i], acts[i]))
  {
    if forall i :: 0 <= i < |acts| ==> !Overwrites(ws[i], acts[i]) {
      forall i | 0 <= i < |ws| ensures Intact(ws[i]) { RunKeeps(ws, acts, i); }
    }
    if i :| 0 <= i < |acts| && Overwrites(ws[i], acts[i]) {
      assert StepAt(ws, acts, i);
      OverwriteLoses(ws[i], acts[i]);
      assert !Intact(ws[i + 1]);
    }
  }

  /** The run that action `m` started is still under way at `n`. */
  ghost predicate UnderWay(ws: seq<World>, acts: seq<Action>, m: nat, n: nat)
    requires |ws| == |acts| + 1
  {
    m < n <= |acts| && acts[m].Start? && forall i :: m < i <= n ==> ws[i].stage != Out
  }

  lemma {:induction false} VerifiedUntilMoved(ws: seq<World>, acts: seq<Action>, m: nat, n: nat)
    requires Run(ws, acts) && UnderWay(ws, acts, m, n) && ws[m].target == Some(ws[m].keep)
    ensures ws[n].keep == ws[m].keep
    ensures ws[n].stage == Begun || ws[n].stage == Recovered || ws[n].stage == Checked ==>
        ws[n].target == Some(ws[n].keep)
  {
    assert StepAt(ws, acts, n - 1);
    if m < n - 1 { VerifiedUntilMoved(ws, acts, m, n - 1); }
  }

  /** Over every run: an update that starts from the executable that last passed its check overwrites no only copy
      as long as it is under way, so a loss needs an update that starts from an unverified one. */
  lemma VerifiedStartIsSafe(ws: seq<World>, acts: seq<Action>, m: nat, n: nat)
    requires Run(ws, acts) && UnderWay(ws, acts, m, n) && n < |acts| && ws[m].target == Some(ws[m].keep)
    ensures !Overwrites(ws[n], acts[n])
  {
    VerifiedUntilMoved(ws, acts, m, n);
  }

  /** Between its first move at `m` and step `n` the run has not ended. */
  ghost predicate InExchange(ws: seq<World>, acts: seq<Action>, m: nat, n: nat)
    requires |ws| == |acts| + 1
  {
    && m < n <= |acts| && acts[m] == First(true) && ws[m].target.Some?
    && forall i :: m < i <= n ==> ws[i].stage == Moved || ws[i].stage == Replaced || ws[i].stage == RollingBack
  }

  /** What the run took away is in its backup, and what it took it for is still staged or already installed. */
  predicate Exchanged(before: World, w: World) {
    && before.target.Some? && w.slot == before.slot
    && w.backups == before.backups[w.slot := before.target.value]
    && (w.stage == Moved ==> w.target == None && w.staged == before.staged)
    && (w.stage == Replaced ==> w.target == before.staged && w.staged == None)
  }

  lemma ExchangeStep(before: World, w: World, a: Action)
    requires Exchanged(before, w) && Enabled(w, a)
    requires w.stage == Moved || w.stage == Replaced || w.stage == RollingBack
    requires Next(w, a).stage != Out
    ensures Exchanged(before, Next(w, a))
  {
  }

  /** A run in the middle of its exchange began it with a first move, and still has both executables. */
  lemma {:induction false} ExchangeBegan(ws: seq<World>, acts: seq<Action>, n: nat) returns (m: nat)
    requires Run(ws, acts) && n <= |acts|
    requires ws[n].stage == Moved || ws[n].stage == Replaced || ws[n].stage == RollingBack
    ensures InExchange(ws, acts, m, n) && Exchanged(ws[m], ws[n])
  {
    assert n > 0;
    assert StepAt(ws, acts, n - 1);
    if acts[n - 1] == First(true) {
      m := n - 1;
    } else {
      m := ExchangeBegan(ws, acts, n - 1);
      ExchangeStep(ws[m], ws[n - 1], acts[n - 1]);
    }
  }

  /** In every run an update that has made its first move ends in one of three ways: its check passes, it has tried to
      roll back, or the machine stops. */
  lemma ExchangeEnds(ws: seq<World>, acts: seq<Action>, n: nat)
    requires Run(ws, acts) && n < |acts| && ws[n + 1].stage == Out
    requires ws[n].stage == Moved || ws[n].stage == Replaced || ws[n].stage == RollingBack
    ensures (acts[n].Smoke? && acts[n].ok) || (acts[n].Rollback? && ws[n].stage == RollingBack) || acts[n] == Crash
  {
    assert StepAt(ws, acts, n);
  }

  /** In every run a rollback that succeeds reinstalls exactly what the first move took away. */
  lemma RollbackReinstalls(ws: seq<World>, acts: seq<Action>, n: nat) returns (m: nat)
    requires Run(ws, acts) && n < |acts| && acts[n] == Rollback(true)
    ensures InExchange(ws, acts, m, n)
    ensures ws[n + 1].target == ws[m].target && ws[n + 1].stage == Out && ws[n + 1].keep == ws[m].keep
    ensures ws[n + 1].backups == ws[m].backups - {ws[m].slot}
  {
    assert StepAt(ws, acts, n);
    m := ExchangeBegan(ws, acts, n);
    KeepUntilCheck(ws, acts, m, n);
  }

  lemma {:induction false} KeepUntilCheck(ws: seq<World>, acts: seq<Action>, m: nat, n: nat)
    requires Run(ws, acts) && InExchange(ws, acts, m, n)
    ensures ws[n].keep == ws[m].keep
  {
    assert StepAt(ws, acts, n - 1);
    if m < n - 1 { KeepUntilCheck(ws, acts, m, n - 1); }
  }

  /** In every run a passed check leaves installed, as the good executable, exactly what was staged at the first move,
      and of the older ones no more than the backups it chose to keep. */
  lemma CheckInstalls(ws: seq<World>, acts: seq<Action>, n: nat, kept: set<nat>) returns (m: nat)
    requires Run(ws, acts) && n < |acts| && acts[n] == Smoke(true, kept)
    ensures InExchange(ws, acts, m, n)
    ensures ws[n + 1].target == ws[m].staged == Some(ws[n + 1].keep) && ws[n + 1].stage == Out
    ensures forall b :: b in ws[n + 1].backups <==> b in kept && (b in ws[m].backups || b == ws[m].slot)
    ensures ws[m].slot in kept ==> ws[n + 1].backups[ws[m].slot] == ws[m].target.value
  {
    assert StepAt(ws, acts, n);
    m := ExchangeBegan(ws, acts, n);
  }

  // ---------------------------------------------------------------- backups named by version

  /** The updater names the backup after the version of the executable it replaces, and a version names one
      executable. */
  ghost predicate NamedByVersion(w: World) {
    && (forall b :: b in w.backups ==> w.backups[b].version == b && OneVersion(w, w.backups[b]))
    && (w.target.Some? ==> OneVersion(w, w.target.value))
    && (w.staged.Some? ==> OneVersion(w, w.staged.value))
    && (w.stage != Out && w.target.Some? && w.stage != Replaced && w.stage != RollingBack ==>
        w.slot == w.target.value.version)
  }

  predicate OneVersion(w: World, e: Exe) {
    e.version == w.keep.version ==> e == w.keep
  }

  /** The executable is staged or in a backup. */
  ghost predicate Stored(w: World, e: Exe) {
    w.staged == Some(e) || exists b :: b in w.backups && w.backups[b] == e
  }

  /** Actions of the updater: it starts from the running executable's version, and publishes no version twice. */
  ghost predicate Proper(w: World, a: Action) {
    && (a.Start? && w.target.Some? ==> a.slot == w.target.value.version)
    && (a.Download? ==> OneVersion(w, a.exe))
    && (a.Smoke? && a.ok && w.target.Some? ==>
          forall e: Exe :: e.version == w.target.value.version && Stored(w, e) ==> e == w.target.value)
  }

  lemma VersionsStay(w: World, a: Action)
    requires NamedByVersion(w) && Enabled(w, a) && Proper(w, a) && Inv(w)
    ensures NamedByVersion(Next(w, a)) && !Overwrites(w, a)
  {
  }

  lemma {:induction false} VersionedRunKeeps(ws: seq<World>, acts: seq<Action>, n: nat)
    requires Run(ws, acts) && n <= |acts| && NamedByVersion(ws[0]) && forall i :: 0 <= i < |acts| ==>
        Proper(ws[i], acts[i])
    ensures Inv(ws[n]) && NamedByVersion(ws[n])
  {
    if n > 0 {
      VersionedRunKeeps(ws, acts, n - 1);
      assert StepAt(ws, acts, n - 1);
      VersionsStay(ws[n - 1], acts[n - 1]);
      StepKeeps(ws[n - 1], acts[n - 1]);
    }
  }

  /** With versioned backup names the good executable survives every run, failure and crash. */
  lemma VersionedBackupsAreSafe(ws: seq<World>, acts: seq<Action>)
    requires Run(ws, acts) && NamedByVersion(ws[0]) && forall i :: 0 <= i < |acts| ==> Proper(ws[i], acts[i])
    ensures forall i :: 0 <= i < |ws| ==> Intact(ws[i])
  {
    forall i | 0 <= i < |ws| ensures Intact(ws[i]) { VersionedRunKeeps(ws, acts, i); }
  }

  /** Over every run: a crash between the two moves is undone by the next run with the same backup name, which puts
      back exactly what was installed before the first move. */
  lemma NextRunRecovers(ws: seq<World>, acts: seq<Action>, n: nat)
    requires Run(ws, acts) && n <= |acts| && ws[n].stage == Moved
    ensures n > 0 && acts[n - 1] == First(true) && ws[n - 1].target.Some?
    ensures var again := Next(Next(Next(ws[n], Crash), Start(ws[n].slot)), Recover(true));
      again.target == ws[n - 1].target && again.stage == Recovered
  {
    assert n > 0;
    assert StepAt(ws, acts, n - 1);
  }

  predicate OneName(acts: seq<Action>) {
    forall i :: 0 <= i < |acts| && acts[i].Start? ==> acts[i].slot == 0
  }

  lemma Extend(ws: seq<World>, acts: seq<Action>, a: Action, next: World) returns (vs: seq<World>, more: seq<Action>)
    requires Run(ws, acts) && Enabled(ws[|acts|], a) && next == Next(ws[|acts|], a)
    requires OneName(acts) && (a.Start? ==> a.slot == 0)
    ensures Run(vs, more) && OneName(more) && vs[|more|] == next
  {
    vs, more := ws + [next], acts + [a];
    forall i | 0 <= i < |more| ensures StepAt(vs, more, i) {
      if i < |acts| { assert StepAt(ws, acts, i); }
    }
  }

  const OLD := Exe(0, 0)

  /** An update up to the second move, from the folder `w` with `e` staged. */
  lemma UpdateUpTo(ws: seq<World>, acts: seq<Action>, home: Exe, b: map<nat, Exe>, e: Exe)
    returns (vs: seq<World>, more: seq<Action>)
    requires Run(ws, acts) && OneName(acts) && ws[|acts|] == World(Some(home), b, None, Out, 0, OLD)
    ensures Run(vs, more) && OneName(more) && vs[|more|] == World(None, b[0 := home], Some(e), Moved, 0, OLD)
  {
    vs, more := Extend(ws, acts, Download(e), World(Some(home), b, Some(e), Out, 0, OLD));
    vs, more := Extend(vs, more, Start(0), World(Some(home), b, Some(e), Begun, 0, OLD));
    vs, more := Extend(vs, more, Recover(true), World(Some(home), b, Some(e), Recovered, 0, OLD));
    vs, more := Extend(vs, more, Check(true), World(Some(home), b, Some(e), Checked, 0, OLD));
    vs, more := Extend(vs, more, First(true), World(None, b[0 := home], Some(e), Moved, 0, OLD));
  }

  /** With one fixed backup name the good executable can be lost: the machine stops between the second move and
      the check, and the next update moves the unchecked file over the backup. */
  lemma FixedNameCanLose() returns (ws: seq<World>, acts: seq<Action>)
    ensures Run(ws, acts) && OneName(acts) && !Intact(ws[|acts|])
  {
    var new1, new2 := Exe(1, 1), Exe(2, 2);
    ws, acts := [World(Some(OLD), map[], None, Out, 0, OLD)], [];
    ws, acts := UpdateUpTo(ws, acts, OLD, map[], new1);
    var b := map[][0 := OLD];
    ws, acts := Extend(ws, acts, Second(true), World(Some(new1), b, None, Replaced, 0, OLD));
    ws, acts := Extend(ws, acts, Crash, World(Some(new1), b, None, Out, 0, OLD));
    ws, acts := UpdateUpTo(ws, acts, new1, b, new2);
  }
}
