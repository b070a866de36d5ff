/**
 The pipeline locks: in every process a thread lock, one file lock shared by all processes, a
 cancellation flag whose scope is one accepted job, and a shutdown flag.  Threads of any number
 of processes take the steps below in any order; a process may die at any point.
 */
module PipelineLocks {
  datatype Who = Who(pid: nat, tid: nat)

  datatype Kind = Job | Watch

  /** Where a thread is: nowhere, between two steps of a request, in its critical section, or on the way out. */
  datatype Place =
    | Away
    | Asked(kind: Kind)                     // the first look at the shutdown flag found it clear
    | HasThread(kind: Kind)
    | HasBoth(kind: Kind)
    | Critical(kind: Kind)
    | Closing(kind: Kind, accepted: bool)   // about to unlock the file
    | Unlocked(kind: Kind, accepted: bool)  // the file is unlocked, `_held` not yet cleared
    | Opened(kind: Kind, accepted: bool)    // only the thread lock is left
    | Probing

  /** One process: the owner of its thread lock, `_held`, and the service's flags. */
  datatype Process = Process(owner: int, held: bool, shutting: bool, cancel: bool, active: bool)

  const NOBODY := -1
  const FRESH := Process(NOBODY, false, false, false, false)

  /** The operating system's view of the lock file: an open handle of a process, or of a probe. */
  datatype Owner = Free | Holder(pid: nat) | Probe(who: Who)

  datatype World = World(procs: map<nat, Process>, places: map<Who, Place>, file: Owner)

  function Proc(w: World, p: nat): Process {
    if p in w.procs then w.procs[p] else FRESH
  }

  function At(w: World, t: Who): Place {
    if t in w.places then w.places[t] else Away
  }

  datatype Action =
    | Ask(who: Who, kind: Kind)
    | TakeThread(who: Who)
    | TakeFile(who: Who)
    | Admit(who: Who)
    | Leave(who: Who)
    | GiveUp(who: Who)
    | UnlockFile(who: Who)
    | ClearHeld(who: Who)
    | ReleaseThread(who: Who)
    | RequestCancel(pid: nat)
    | PrepareShutdown(pid: nat)
    | StartProbe(who: Who)
    | EndProbe(who: Who)
    | Die(pid: nat)

  predicate Enabled(w: World, a: Action) {
    match a
    case Ask(t, _) => At(w, t) == Away
    case TakeThread(t) => At(w, t).Asked?
    case TakeFile(t) => At(w, t).HasThread?
    case Admit(t) => At(w, t).HasBoth?
    case Leave(t) => At(w, t).Critical?
    case GiveUp(t) => At(w, t) == Asked(Watch) || At(w, t) == HasThread(Watch) || At(w, t) == HasBoth(Watch)
    case UnlockFile(t) => At(w, t).Closing?
    case ClearHeld(t) => At(w, t).Unlocked?
    case ReleaseThread(t) => At(w, t).Opened?
    case StartProbe(t) => At(w, t) == Away
    case EndProbe(t) => At(w, t) == Probing
    case _ => true
  }

  function Move(w: World, t: Who, place: Place): World {
    w.(places := w.places[t := place])
  }

  function SetProc(w: World, p: nat, proc: Process): World {
    w.(procs := w.procs[p := proc])
  }

  /** `_process_lock.acquire`: true at once when this process already holds it, else one try. */
  function FileGranted(w: World, p: nat): bool {
    Proc(w, p).held || w.file == Free
  }

  function Next(w: World, a: Action): World
    requires Enabled(w, a)
  {
    match a
    case Ask(t, kind) =>
      if Proc(w, t.pid).shutting then w else Move(w, t, Asked(kind))
    case TakeThread(t) =>
      var proc := Proc(w, t.pid);
      if proc.owner == NOBODY then Move(SetProc(w, t.pid, proc.(owner := t.tid)), t, HasThread(At(w, t).kind))
      else if At(w, t).kind == Job then Move(w, t, Away)   // non-blocking: rejected as already running
      else w                                               // a Watch upload keeps trying
    case TakeFile(t) =>
      var proc := Proc(w, t.pid);
      if FileGranted(w, t.pid) then
        Move(SetProc(w, t.pid, proc.(held := true)).(file := if proc.held then w.file else Holder(t.pid)), t,
            HasBoth(At(w, t).kind))
      else if At(w, t).kind == Job then Move(w, t, Opened(Job, false))
      else w
    case Admit(t) =>
      var proc := Proc(w, t.pid);
      if proc.shutting then Move(w, t, Closing(At(w, t).kind, false))
      else if At(w, t).kind == Job then
          Move(SetProc(w, t.pid, proc.(cancel := false, active := true)), t, Critical(Job))
      else Move(w, t, Critical(Watch))
    case Leave(t) => Move(w, t, Closing(At(w, t).kind, true))
    case GiveUp(t) =>
      Move(w, t, match At(w, t) case Asked(_) => Away case HasThread(_) => Opened(Watch,
          false) case _ => Closing(Watch, false))
    case UnlockFile(t) =>
      Move(if Proc(w, t.pid).held then w.(file := Free) else w, t, Unlocked(At(w, t).kind, At(w, t).accepted))
    case ClearHeld(t) =>
      Move(SetProc(w, t.pid, Proc(w, t.pid).(held := false)), t, Opened(At(w, t).kind, At(w, t).accepted))
    case ReleaseThread(t) =>
      var proc := Proc(w, t.pid);
      var done := if At(w, t) == Opened(Job, true) then proc.(active := false) else proc;
      Move(SetProc(w, t.pid, done.(owner := NOBODY)), t, Away)
    case RequestCancel(p) => SetProc(w, p, Proc(w, p).(cancel := true))
    case PrepareShutdown(p) => SetProc(w, p, Proc(w, p).(shutting := true, cancel := true))
    case StartProbe(t) =>
      if Proc(w, t.pid).held || w.file != Free then w else Move(w.(file := Probe(t)), t, Probing)
    case EndProbe(t) => Move(w.(file := Free), t, Away)
    case Die(p) =>
      World(w.procs - {p}, map t | t in w.places && t.pid != p :: w.places[t],
            if w.file == Holder(p) || (w.file.Probe? && w.file.who.pid == p) then Free else w.file)
  }

  // ---------------------------------------------------------------- the invariant

  predicate OwnsThread(place: Place) {
    place.HasThread? || place.HasBoth? || place.Critical? || place.Closing? || place.Unlocked? || place.Opened?
  }

  predicate OwnsFile(place: Place) {
    place.HasBoth? || place.Critical? || place.Closing?
  }

  /** What a thread's place says about its process and the lock file. */
  predicate ThreadOk(w: World, t: Who) {
    var place, proc := At(w, t), Proc(w, t.pid);
    && (OwnsThread(place) <==> proc.owner == t.tid)
    && (OwnsThread(place) ==> (proc.held <==> OwnsFile(place) || place.Unlocked?))
    && (OwnsFile(place) ==> w.file == Holder(t.pid))
    && (OwnsThread(place) && !OwnsFile(place) ==> w.file != Holder(t.pid))
    && (place == Probing <==> w.file == Probe(t))
    && (place == Critical(Job) ==> proc.active)
  }

  /** What a process's fields say on their own. */
  predicate ProcessOk(w: World, p: nat) {
    var proc := Proc(w, p);
    && (proc.held ==> proc.owner >= 0)
    && (w.file == Holder(p) ==> proc.held)
    && (proc.owner >= 0 || proc.owner == NOBODY)
    && (proc.shutting ==> proc.cancel)
  }

  ghost predicate Inv(w: World) {
    (forall t {:trigger ThreadOk(w, t)} :: ThreadOk(w, t)) && (forall p {:trigger ProcessOk(w, p)} :: ProcessOk(w, p))
  }

  predicate Threaded(a: Action) {
    !a.RequestCancel? && !a.PrepareShutdown? && !a.Die?
  }

  /** The thread that takes the step. */
  lemma StepActor(w: World, a: Action)
    requires Inv(w) && Enabled(w, a) && Threaded(a)
    ensures ThreadOk(Next(w, a), a.who)
  {
    assert ThreadOk(w, a.who) && ProcessOk(w, a.who.pid);
  }

  /** Any other thread, in a step that leaves the file alone or changes it for the actor's process. */
  lemma StepOther(w: World, a: Action, u: Who)
    requires Inv(w) && Enabled(w, a) && Threaded(a) && u != a.who
    ensures ThreadOk(Next(w, a), u)
  {
    assert ThreadOk(w, u) && ThreadOk(w, a.who) && ProcessOk(w, a.who.pid);
  }

  lemma StepThread(w: World, a: Action, u: Who)
    requires Inv(w) && Enabled(w, a)
    ensures ThreadOk(Next(w, a), u)
  {
    if !Threaded(a) {
      assert ThreadOk(w, u) && ProcessOk(w, u.pid);
    } else if u == a.who {
      StepActor(w, a);
    } else {
      StepOther(w, a, u);
    }
  }

  lemma StepProcess(w: World, a: Action, p: nat)
    requires Inv(w) && Enabled(w, a)
    ensures ProcessOk(Next(w, a), p)
  {
    assert ProcessOk(w, p);
    match a
    case RequestCancel(_) =>
    case PrepareShutdown(_) =>
    case Die(_) =>
    case _ =>
      assert ThreadOk(w, a.who) && ProcessOk(w, a.who.pid);
  }

  /** Every step of every thread, and the death of any process, keeps the invariant. */
  lemma StepKeeps(w: World, a: Action)
    requires Inv(w) && Enabled(w, a)
    ensures Inv(Next(w, a))
  {
    forall u ensures ThreadOk(Next(w, a), u) { StepThread(w, a, u); }
    forall p ensures ProcessOk(Next(w, a), p) { StepProcess(w, a, p); }
  }

  // ---------------------------------------------------------------- what the protocol guarantees

  /** At most one job or Watch upload is in its critical section, over all processes. */
  lemma MutualExclusion(w: World, t: Who, u: Who)
    requires Inv(w) && At(w, t).Critical? && At(w, u).Critical?
    ensures t == u
  {
    assert ThreadOk(w, t) && ThreadOk(w, u);
  }

  /** The process lock is held only by the holder of the thread lock, so `acquire` never returns early
      because the process already holds it. */
  lemma FileHeldByThreadOwner(w: World, t: Who)
    requires Inv(w) && Enabled(w, TakeFile(t))
    ensures !Proc(w, t.pid).held
    ensures forall u: Who :: OwnsFile(At(w, u)) && u.pid == t.pid ==>
        OwnsThread(At(w, u)) && Proc(w, t.pid).owner == u.tid
  {
    assert ThreadOk(w, t);
    forall u: Who | OwnsFile(At(w, u)) && u.pid == t.pid ensures Proc(w, t.pid).owner == u.tid {
      assert ThreadOk(w, u);
    }
  }

  /** A cancellation is cleared in one way only: a job of that process is accepted, while no other thread
      anywhere is in its critical section and no shutdown was prepared. */
  lemma OnlyAcceptanceClearsCancel(w: World, a: Action, p: nat)
    requires Inv(w) && Enabled(w, a) && a != Die(p)
    requires Proc(w, p).cancel && !Proc(Next(w, a), p).cancel
    ensures a.Admit? && a.who.pid == p && !Proc(w, p).shutting
    ensures At(Next(w, a), a.who) == Critical(Job)
    ensures forall u :: !At(w, u).Critical?
  {
    forall u ensures !At(w, u).Critical? { assert ThreadOk(w, u) && ThreadOk(w, a.who); }
  }

  predicate TurnedDown(place: Place) {
    (place.Closing? || place.Unlocked? || place.Opened?) && !place.accepted
  }

  /** A request that is turned down, at any of its three checks, leaves every flag of every process alone,
      on the way in and on the way out. */
  lemma RejectionChangesNoFlag(w: World, a: Action, p: nat)
    requires Inv(w) && Enabled(w, a)
    requires a.Ask? || a.TakeThread? || a.TakeFile? || (a.Admit? && !At(Next(w, a), a.who).Critical?) ||
             ((a.UnlockFile? || a.ClearHeld? || a.ReleaseThread?) && TurnedDown(At(w, a.who)))
    ensures Proc(Next(w, a), p).cancel == Proc(w, p).cancel
    ensures Proc(Next(w, a), p).active == Proc(w, p).active && Proc(Next(w, a), p).shutting == Proc(w, p).shutting
  {
  }

  /** Once a shutdown was prepared it stays so, cancellation stays requested, and no job is accepted. */
  lemma ShutdownIsFinal(w: World, a: Action, p: nat)
    requires Inv(w) && Enabled(w, a) && Proc(w, p).shutting && a != Die(p)
    ensures Proc(Next(w, a), p).shutting && Proc(Next(w, a), p).cancel
    ensures forall t: Who :: t.pid == p && At(Next(w, a), t).Critical? ==> At(w, t).Critical?
  {
    assert ProcessOk(w, p);
  }

  /** When the active flag is down no job of the process is in its critical section: `shutdown_pipeline` reports
      the truth. */
  lemma InactiveMeansNoJob(w: World, t: Who)
    requires Inv(w) && !Proc(w, t.pid).active
    ensures At(w, t) != Critical(Job)
  {
    assert ThreadOk(w, t);
  }

  // ---------------------------------------------------------------- runs

  ghost predicate StepAt(ws: seq<World>, acts: seq<Action>, i: nat)
    requires |ws| == |acts| + 1 && i < |acts|
  {
    Enabled(ws[i], acts[i]) && ws[i + 1] == Next(ws[i], acts[i])
  }

  ghost predicate Run(ws: seq<World>, acts: seq<Action>) {
    && |ws| == |acts| + 1 && ws[0] == World(map[], map[], Free)
    && forall i {:trigger StepAt(ws, acts, i)} :: 0 <= i < |acts| ==> StepAt(ws, acts, i)
  }

  lemma {:induction false} RunKeeps(ws: seq<World>, acts: seq<Action>, n: nat)
    requires Run(ws, acts) && n <= |acts|
    ensures Inv(ws[n])
  {
    if n > 0 {
      RunKeeps(ws, acts, n - 1);
      assert StepAt(ws, acts, n - 1);
      StepKeeps(ws[n - 1], acts[n - 1]);
    }
  }

  /** Over every run, at most one thread of all processes is ever in its critical section. */
  lemma OneAtATime(ws: seq<World>, acts: seq<Action>, n: nat, t: Who, u: Who)
    requires Run(ws, acts) && n <= |acts| && At(ws[n], t).Critical? && At(ws[n], u).Critical?
    ensures t == u
  {
    RunKeeps(ws, acts, n);
    MutualExclusion(ws[n], t, u);
  }

  /** Over every run: from a prepared shutdown on, as long as the process lives, none of its threads enters a
      critical section again and its cancellation stays requested. */
  lemma {:induction false} NothingStartsAfterShutdown(ws: seq<World>, acts: seq<Action>, m: nat, n: nat, t: Who)
    requires Run(ws, acts) && m <= n <= |acts| && Proc(ws[m], t.pid).shutting
    requires forall i :: m <= i < n ==> acts[i] != Die(t.pid)
    ensures Proc(ws[n], t.pid).shutting && Proc(ws[n], t.pid).cancel
    ensures !At(ws[m], t).Critical? ==> !At(ws[n], t).Critical?
  {
    RunKeeps(ws, acts, n);
    assert ProcessOk(ws[n], t.pid) by { assert Inv(ws[n]); }
    if m < n {
      NothingStartsAfterShutdown(ws, acts, m, n - 1, t);
      RunKeeps(ws, acts, n - 1);
      assert StepAt(ws, acts, n - 1);
      ShutdownIsFinal(ws[n - 1], acts[n - 1], t.pid);
    }
  }

  lemma Extend(ws: seq<World>, acts: seq<Action>, a: Action) returns (vs: seq<World>, more: seq<Action>)
    requires Run(ws, acts) && Enabled(ws[|acts|], a)
    ensures Run(vs, more) && more == acts + [a] && vs == ws + [Next(ws[|acts|], a)]
  {
    vs, more := ws + [Next(ws[|acts|], a)], acts + [a];
    forall i | 0 <= i < |more| ensures StepAt(vs, more, i) {
      if i < |acts| { assert StepAt(ws, acts, i); }
    }
  }

  // ---------------------------------------------------------------- when a job is turned down

  /** Some thread of the process is between taking and releasing its thread lock. */
  ghost predicate ThreadBusy(w: World, p: nat) {
    exists u: Who :: u.pid == p && OwnsThread(At(w, u))
  }

  /** Some thread anywhere is at work under the file lock, or probes it. */
  ghost predicate FileBusy(w: World) {
    exists u: Who :: At(w, u) == Probing || OwnsFile(At(w, u))
  }

  lemma ThreadBusyIff(w: World, p: nat)
    requires Inv(w)
    ensures ThreadBusy(w, p) <==> Proc(w, p).owner != NOBODY
  {
    assert ProcessOk(w, p);
    if Proc(w, p).owner != NOBODY {
      var u := Who(p, Proc(w, p).owner);
      assert ThreadOk(w, u) && OwnsThread(At(w, u));
    }
    if u: Who :| u.pid == p && OwnsThread(At(w, u)) { assert ThreadOk(w, u); }
  }

  lemma FileBusyIff(w: World)
    requires Inv(w)
    ensures FileBusy(w) <==> w.file != Free
  {
    if u: Who :| At(w, u) == Probing || OwnsFile(At(w, u)) { assert ThreadOk(w, u); }
    match w.file
    case Free =>
    case Holder(p) =>
      assert ProcessOk(w, p);
      var u := Who(p, Proc(w, p).owner);
      assert ThreadOk(w, u) && OwnsFile(At(w, u));
    case Probe(u) => assert ThreadOk(w, u) && At(w, u) == Probing;
  }

  /** A job is turned down at the thread lock exactly when another thread of its process owns it. */
  lemma JobRejectedAtThreadIff(w: World, t: Who)
    requires Inv(w) && At(w, t) == Asked(Job)
    ensures At(Next(w, TakeThread(t)), t) == if ThreadBusy(w, t.pid) then Away else HasThread(Job)
  {
    ThreadBusyIff(w, t.pid);
  }

  /** It is turned down at the file exactly when a thread anywhere is at work under the file lock or probes it. */
  lemma JobRejectedAtFileIff(w: World, t: Who)
    requires Inv(w) && At(w, t) == HasThread(Job)
    ensures At(Next(w, TakeFile(t)), t) == if FileBusy(w) then Opened(Job, false) else HasBoth(Job)
  {
    assert ThreadOk(w, t);
    FileBusyIff(w);
  }

  /** Over every run, at each of its three checks: a job is turned down exactly when another thread of its process has
      the thread lock, when some thread is under the file lock or probes it, and when a shutdown was prepared. */
  lemma JobTurnedDownIff(ws: seq<World>, acts: seq<Action>, n: nat, t: Who)
    requires Run(ws, acts) && n < |acts|
    ensures acts[n] == TakeThread(t) && At(ws[n], t) == Asked(Job) ==>
              At(ws[n + 1], t) == if ThreadBusy(ws[n], t.pid) then Away else HasThread(Job)
    ensures acts[n] == TakeFile(t) && At(ws[n], t) == HasThread(Job) ==>
              At(ws[n + 1], t) == if FileBusy(ws[n]) then Opened(Job, false) else HasBoth(Job)
    ensures acts[n] == Admit(t) && At(ws[n], t) == HasBoth(Job) ==>
              At(ws[n + 1], t) == if Proc(ws[n], t.pid).shutting then Closing(Job, false) else Critical(Job)
  {
    RunKeeps(ws, acts, n);
    assert StepAt(ws, acts, n);
    if acts[n] == TakeThread(t) && At(ws[n], t) == Asked(Job) { JobRejectedAtThreadIff(ws[n], t); }
    if acts[n] == TakeFile(t) && At(ws[n], t) == HasThread(Job) { JobRejectedAtFileIff(ws[n], t); }
  }

  /** With nothing at work under the file lock anywhere, a job is turned down at the file exactly when a probe has
      it. */
  lemma NeedlessRejectionIff(ws: seq<World>, acts: seq<Action>, n: nat, t: Who)
    requires Run(ws, acts) && n < |acts| && acts[n] == TakeFile(t) && At(ws[n], t) == HasThread(Job)
    requires forall u: Who :: !OwnsFile(At(ws[n], u))
    ensures At(ws[n + 1], t) == Opened(Job, false) <==> exists u: Who :: At(ws[n], u) == Probing
  {
    JobTurnedDownIff(ws, acts, n, t);
  }

  /** The probe behind `is_pipeline_running` does take the file for a moment: a job asked for meanwhile is
      turned down although nothing runs anywhere. */
  lemma ProbeCanRejectAJob() returns (ws: seq<World>, acts: seq<Action>)
    ensures Run(ws, acts)
    ensures forall i, t :: 0 <= i < |ws| ==> !At(ws[i], t).Critical?
    ensures |acts| > 0 && acts[|acts| - 1].TakeFile? && At(ws[|acts|], acts[|acts| - 1].who) == Opened(Job, false)
  {
    var t, u := Who(0, 0), Who(1, 0);
    ws, acts := [World(map[], map[], Free)], [];
    ws, acts := Extend(ws, acts, Ask(t, Job));
    ws, acts := Extend(ws, acts, TakeThread(t));
    ws, acts := Extend(ws, acts, StartProbe(u));
    ws, acts := Extend(ws, acts, TakeFile(t));
  }

  // ---------------------------------------------------------------- the flags of an accepted job

  predicate Cancels(a: Action, p: nat) {
    a == RequestCancel(p) || a == PrepareShutdown(p)
  }

  /** The job was accepted by action `m` and is still in its critical section at `n`. */
  ghost predicate RunsSince(ws: seq<World>, acts: seq<Action>, m: nat, n: nat, t: Who)
    requires |ws| == |acts| + 1
  {
    && m < n <= |acts| && acts[m] == Admit(t) && At(ws[m], t) == HasBoth(Job)
    && forall i :: m < i <= n ==> At(ws[i], t) == Critical(Job)
  }

  lemma FlagsStep(w: World, a: Action, t: Who)
    requires Inv(w) && Enabled(w, a) && At(w, t) == Critical(Job) && At(Next(w, a), t) == Critical(Job)
    ensures Proc(Next(w, a), t.pid).cancel <==> Proc(w, t.pid).cancel || Cancels(a, t.pid)
    ensures Proc(Next(w, a), t.pid).active
  {
    assert ThreadOk(w, t);
    if Threaded(a) { assert ThreadOk(w, a.who); }
  }

  /** Over every run: an accepted job starts with the cancellation flag clear, whatever happened to the jobs before it,
      and while it runs the flag is set exactly when a cancellation or a shutdown was asked for since. */
  lemma {:induction false} JobCancelledIff(ws: seq<World>, acts: seq<Action>, m: nat, n: nat, t: Who)
    requires Run(ws, acts) && RunsSince(ws, acts, m, n, t)
    ensures Proc(ws[n], t.pid).active
    ensures Proc(ws[n], t.pid).cancel <==> exists i :: m < i < n && Cancels(acts[i], t.pid)
  {
    assert StepAt(ws, acts, n - 1);
    if m < n - 1 {
      JobCancelledIff(ws, acts, m, n - 1, t);
      RunKeeps(ws, acts, n - 1);
      FlagsStep(ws[n - 1], acts[n - 1], t);
    }
  }

  /** Over every run a prepared shutdown takes effect at once and for as long as the process lives: cancellation stays
      requested and none of its threads enters a critical section it was not in. */
  lemma PreparedShutdownHolds(ws: seq<World>, acts: seq<Action>, m: nat, n: nat, t: Who)
    requires Run(ws, acts) && m < n <= |acts| && acts[m] == PrepareShutdown(t.pid)
    requires forall i :: m < i < n ==> acts[i] != Die(t.pid)
    ensures Proc(ws[n], t.pid).shutting && Proc(ws[n], t.pid).cancel
    ensures At(ws[n], t).Critical? ==> At(ws[m], t).Critical?
  {
    assert StepAt(ws, acts, m);
    NothingStartsAfterShutdown(ws, acts, m + 1, n, t);
  }

  /** An accepted job, in its critical section or on its way out. */
  predicate Working(place: Place) {
    || place == Critical(Job)
    || ((place.Closing? || place.Unlocked? || place.Opened?) && place.kind == Job && place.accepted)
  }

  ghost predicate ActiveOk(w: World, p: nat) {
    Proc(w, p).active <==> exists t: Who :: t.pid == p && Working(At(w, t))
  }

  /** While the job of `t` is under way it stays so, with the flag up, until its last step takes both away. */
  lemma WorkerStep(w: World, a: Action, t: Who)
    requires Inv(w) && Enabled(w, a) && Working(At(w, t)) && Proc(w, t.pid).active
    ensures Proc(Next(w, a), t.pid).active <==> Working(At(Next(w, a), t))
  {
    assert ThreadOk(w, t);
    if Threaded(a) { assert ThreadOk(w, a.who); }
  }

  lemma IdleStep(w: World, a: Action, p: nat, u: Who)
    requires Inv(w) && Enabled(w, a) && !Proc(w, p).active && u.pid == p && !Working(At(w, u))
    ensures Working(At(Next(w, a), u)) <==> Proc(Next(w, a), p).active && a.Admit? && a.who == u
    ensures Proc(Next(w, a), p).active ==> a.Admit? && a.who.pid == p && Working(At(Next(w, a), a.who))
  {
    assert ThreadOk(w, u);
  }

  lemma ActiveStep(w: World, a: Action, p: nat)
    requires Inv(w) && Enabled(w, a) && ActiveOk(w, p)
    ensures ActiveOk(Next(w, a), p)
  {
    var next := Next(w, a);
    if Proc(w, p).active {
      var t: Who :| t.pid == p && Working(At(w, t));
      WorkerStep(w, a, t);
      forall u: Who | u.pid == p ensures Working(At(next, u)) ==> Proc(next, p).active {
        if u != t { NewWorker(w, a, t, u); }
      }
    } else {
      forall u: Who | u.pid == p ensures Working(At(next, u)) ==> Proc(next, p).active { IdleStep(w, a, p, u); }
      IdleStep(w, a, p, Who(p, 0));
    }
  }

  /** Beside a job under way no other one starts. */
  lemma NewWorker(w: World, a: Action, t: Who, u: Who)
    requires Inv(w) && Enabled(w, a) && Working(At(w, t)) && u.pid == t.pid && u != t
    ensures !Working(At(Next(w, a), u))
  {
    assert ThreadOk(w, t) && ThreadOk(w, u);
  }

  /** Over every run the active flag of a process is up exactly while one of its threads has an accepted job under
      way. */
  lemma {:induction false} ActiveIff(ws: seq<World>, acts: seq<Action>, n: nat, p: nat)
    requires Run(ws, acts) && n <= |acts|
    ensures Proc(ws[n], p).active <==> exists t: Who :: t.pid == p && Working(At(ws[n], t))
  {
    if n > 0 {
      ActiveIff(ws, acts, n - 1, p);
      RunKeeps(ws, acts, n - 1);
      assert StepAt(ws, acts, n - 1);
      ActiveStep(ws[n - 1], acts[n - 1], p);
    }
  }
}
