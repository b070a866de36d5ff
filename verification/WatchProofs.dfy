/**
 Runs of the Watch queue: observer threads, the worker, failing saves, stops and restarts from the
 saved records, in any interleaving.
 */
module WatchProofs {
  import opened WatchQueue

  /** Target `key` acknowledged the content `fp` of `path`. */
  datatype Ack = Ack(path: string, fp: seq<nat>, key: string)

  /** The queue together with what an observer of the run knows: every acknowledgement so far, whether
      no event for the worker's path was accepted since its pass began, what the last re-check saw, and
      the paths whose record was saved torn. */
  datatype World = World(q: Queue, acks: set<Ack>, clean: bool, checked: Record, torn: set<string>, base: real,
      cap: real)

  datatype Action =
    | Enqueue(path: string, saves: bool)
    | Retain(path: string, saves: bool)
    | Stop
    | Pick(path: string, now: real)
    | Begin
    | SavePlan(fp: seq<nat>, keys: map<string, string>, saves: bool)
    | AssignPlan
    | Attempt(ok: set<string>)
    | GiveUp
    | Recheck(fp: seq<nat>, current: set<string>, saves: bool)
    | SetCompleted
    | SaveResult(saves: bool)
    | Conclude(saves: bool, now: real)
    | Restart

  predicate Busy(q: Queue) {
    q.phase != Idle
  }

  predicate Enabled(w: World, a: Action) {
    var q := w.q;
    (Busy(q) ==> q.phase.path in q.jobs) &&
    match a
    case Enqueue(_, _) => true
    case Retain(_, _) => true
    case Stop => true
    case Pick(p, now) => CanPick(q, p, now)
    case Begin => q.phase.Picked?
    case SavePlan(fp, _, _) => q.phase.Started? && fp != []
    case AssignPlan => q.phase.Saved?
    case Attempt(_) => q.phase.Planned? && !q.stopped
    case GiveUp => CanGiveUp(q)
    case Recheck(_, _, _) => q.phase.Uploaded?
    case SetCompleted => q.phase.HalfWritten?
    case SaveResult(_) => q.phase.Written?
    case Conclude(_, _) => q.phase.Done?
    case Restart => true
  }

  predicate SubsetOk(r: Record) {
    r.completed <= r.targets
  }

  /** A `retain` between the record's two assignments, when a completed target is no longer configured. */
  predicate Tears(w: World, a: Action) {
    && a.Retain? && a.saves && w.q.phase.HalfWritten? && w.q.phase.path == a.path
    && a.path in w.q.jobs && !SubsetOk(w.q.jobs[a.path].state)
  }

  /** An event the queue accepts for the path the worker is busy with. */
  predicate Accepts(q: Queue, a: Action, p: string) {
    (a.Enqueue? && a.path == p && !q.stopped) || (a.Retain? && a.path == p)
  }

  function NextQueue(w: World, a: Action): Queue
    requires Enabled(w, a)
  {
    var q := w.q;
    match a
    case Enqueue(p, saves) => Added(q, p, false, saves)
    case Retain(p, saves) => Added(q, p, true, saves)
    case Stop => q.(stopped := true)
    case Pick(p, _) => q.(phase := Picked(p))
    case Begin => Begun(q)
    case SavePlan(fp, keys, saves) => PlanSaved(q, fp, keys, saves)
    case AssignPlan => PlanAssigned(q)
    case Attempt(ok) => Attempted(q, ok)
    case GiveUp => GivenUp(q)
    case Recheck(fp, current, saves) => Rechecked(q, fp, current, saves)
    case SetCompleted => Completed(q)
    case SaveResult(saves) => ResultSaved(q, saves)
    case Conclude(saves, now) => Concluded(q, saves, now, w.base, w.cap)
    case Restart => Load(q.saved)
  }

  function NewAcks(q: Queue, a: Action): set<Ack> {
    if a.Recheck? && q.phase.Uploaded? && a.fp == q.phase.fp then
      set k | k in q.phase.keys && q.phase.keys[k] in q.phase.ok :: Ack(q.phase.path, q.phase.fp, k)
    else {}
  }

  function Next(w: World, a: Action): World
    requires Enabled(w, a)
  {
    World(NextQueue(w, a),
          w.acks + NewAcks(w.q, a),
          if a.Begin? then true else if Busy(w.q) && Accepts(w.q, a, w.q.phase.path) then false else w.clean,
          if a.Recheck? && a.fp == w.q.phase.fp then Record(a.fp, a.current, {}) else w.checked,
          if Tears(w, a) then w.torn + {a.path} else w.torn,
          w.base, w.cap)
  }

  // ---------------------------------------------------------------- the invariant

  predicate RecordAcked(acks: set<Ack>, p: string, r: Record) {
    forall k :: k in r.completed ==> Ack(p, r.fp, k) in acks
  }

  predicate Finished(r: Record) {
    r.completed == r.targets && r.targets != {}
  }

  /** Everything a record lists as completed was acknowledged for that content. */
  predicate RecordsOk(w: World) {
    && (forall p :: p in w.q.jobs ==> RecordAcked(w.acks, p, w.q.jobs[p].state))
    && (forall p :: p in w.q.saved ==> RecordAcked(w.acks, p, w.q.saved[p]))
    && (forall p :: p in w.q.finished ==> RecordAcked(w.acks, p, w.q.finished[p]) && Finished(w.q.finished[p]))
    && w.q.saved.Keys <= w.q.jobs.Keys
  }

  /** The generation the worker read is current exactly when no event was accepted since. */
  predicate GenerationOk(w: World) {
    var q := w.q;
    Busy(q) ==>
      && q.phase.path in q.jobs
      && (!q.phase.Picked? ==>
            var last := q.jobs[q.phase.path].generation;
            q.phase.gen <= last && (w.clean <==> q.phase.gen == last))
  }

  /** The saved record lists no target of this pass as completed that the pass will upload to. */
  predicate SavedCovered(q: Queue, p: string, fp: seq<nat>, keys: map<string, string>, completed: set<string>) {
    p in q.saved && (q.saved[p].fp == fp ==> q.saved[p].completed * keys.Keys <= completed)
  }

  predicate PhaseOk(w: World) {
    Busy(w.q) ==> w.q.phase.path in w.q.jobs && PassOk(w)
  }

  /** What the worker's local variables say about the job's record. */
  predicate PassOk(w: World)
    requires Busy(w.q) && w.q.phase.path in w.q.jobs
  {
    var q := w.q;
    var p, state := q.phase.path, q.jobs[q.phase.path].state;
    match q.phase
    case Saved(_, _, fp, keys, completed) =>
      fp != [] && completed == Carried(state, fp, keys) && SavedCovered(q, p, fp, keys, completed)
    case Planned(_, _, fp, keys, completed) =>
      fp != [] && completed <= keys.Keys && state == Record(fp, keys.Keys, completed) &&
          SavedCovered(q, p, fp, keys, completed)
    case Uploaded(_, _, fp, keys, completed, _) =>
      fp != [] && completed <= keys.Keys && state == Record(fp, keys.Keys, completed)
    case HalfWritten(_, _, fp, current, acked) =>
      && state.fp == fp && state.targets == current && acked <= current
      && (forall k :: k in acked ==> Ack(p, fp, k) in w.acks)
      && w.checked == Record(fp, current, {})
    case Written(_, _, fp, current, acked) =>
      state == Record(fp, current, acked) && acked <= current && w.checked == Record(fp, current, {})
    case Done(_, _, complete) =>
      complete ==> Finished(state) && w.checked == Record(state.fp, state.targets, {})
    case _ => true
  }

  /** A record can be torn only where a tearing step was. */
  predicate TornOk(w: World) {
    && (forall p :: p in w.q.saved && !SubsetOk(w.q.saved[p]) ==> p in w.torn)
    && (forall p :: p in w.q.jobs && !SubsetOk(w.q.jobs[p].state) ==>
          p in w.torn || (w.q.phase.HalfWritten? && w.q.phase.path == p))
  }

  predicate Inv(w: World) {
    RecordsOk(w) && GenerationOk(w) && PhaseOk(w) && TornOk(w)
  }

  /** A session starting from saved records: what they list as completed was acknowledged before. */
  predicate Initial(w: World) {
    && w.q == Load(w.q.saved)
    && (forall p :: p in w.q.saved ==> RecordAcked(w.acks, p, w.q.saved[p]) && (SubsetOk(w.q.saved[p]) || p in w.torn))
  }

  lemma InitialInv(w: World)
    requires Initial(w)
    ensures Inv(w)
  {
  }

  lemma EventKeepsRecords(w: World, a: Action)
    requires Inv(w) && Enabled(w, a) && (a.Enqueue? || a.Retain?)
    ensures RecordsOk(Next(w, a))
  {
    var q, t, p := w.q, Next(w, a).q, a.path;
    assert t.finished == q.finished && RecordAcked(w.acks, p, Known(q, p));
    forall o | o in t.jobs ensures RecordAcked(w.acks, o, t.jobs[o].state) {
      assert if o in q.jobs then t.jobs[o].state == q.jobs[o].state else o == p && t.jobs[o].state == Known(q, p);
    }
    forall o | o in t.saved ensures RecordAcked(w.acks, o, t.saved[o]) && o in t.jobs {
      assert (o in q.saved && t.saved[o] == q.saved[o]) ||
          (o == p && t.saved[o] == if p in q.jobs then q.jobs[p].state else Known(q, p));
    }
  }

  lemma EventKeepsGeneration(w: World, a: Action)
    requires Inv(w) && Enabled(w, a) && (a.Enqueue? || a.Retain?)
    ensures GenerationOk(Next(w, a))
  {
  }

  lemma AddedKeeps(q: Queue, p: string, deferred: bool, saves: bool, o: string)
    requires o in q.jobs
    ensures var t := Added(q, p, deferred, saves);
      && t.phase == q.phase && o in t.jobs && t.jobs[o].state == q.jobs[o].state
      && (o in q.saved ==> o in t.saved && (t.saved[o] == q.saved[o] || t.saved[o] == q.jobs[o].state))
  {
  }

  lemma PassSurvives(w: World, next: World)
    requires PhaseOk(w) && Busy(w.q) && next.q.phase == w.q.phase && next.acks == w.acks && next.checked == w.checked
    requires var p := w.q.phase.path;
      && p in next.q.jobs && next.q.jobs[p].state == w.q.jobs[p].state
      && (p in w.q.saved ==>
            p in next.q.saved && (next.q.saved[p] == w.q.saved[p] || next.q.saved[p] == w.q.jobs[p].state))
    ensures PhaseOk(next)
  {
  }

  lemma EventKeepsPhase(w: World, a: Action)
    requires Inv(w) && Enabled(w, a) && (a.Enqueue? || a.Retain?)
    ensures PhaseOk(Next(w, a))
  {
    if Busy(w.q) {
      AddedKeeps(w.q, a.path, a.Retain?, a.saves, w.q.phase.path);
      PassSurvives(w, Next(w, a));
    }
  }

  lemma EventKeepsTorn(w: World, a: Action)
    requires Inv(w) && Enabled(w, a) && (a.Enqueue? || a.Retain?)
    ensures TornOk(Next(w, a))
  {
  }

  lemma TurnKeeps(w: World, a: Action)
    requires Inv(w) && Enabled(w, a) && (a.Stop? || a.Pick? || a.Begin? || a.Attempt? || a.GiveUp?)
    ensures Inv(Next(w, a))
  {
  }

  lemma PlanKeeps(w: World, a: Action)
    requires Inv(w) && Enabled(w, a) && (a.SavePlan? || a.AssignPlan?)
    ensures Inv(Next(w, a))
  {
  }

  lemma RecheckKeepsRecords(w: World, a: Action)
    requires Inv(w) && Enabled(w, a) && a.Recheck?
    ensures RecordsOk(Next(w, a)) && GenerationOk(Next(w, a)) && TornOk(Next(w, a))
  {
  }

  lemma RecheckKeepsPhase(w: World, a: Action)
    requires Inv(w) && Enabled(w, a) && a.Recheck?
    ensures PhaseOk(Next(w, a))
  {
    var ph := w.q.phase;
    if a.fp == ph.fp {
      var acked := Acknowledged(ph.keys, ph.completed, ph.ok, a.current);
      forall k | k in acked ensures Ack(ph.path, ph.fp, k) in Next(w, a).acks {
        if k !in ph.completed { assert Ack(ph.path, ph.fp, k) in NewAcks(w.q, a); }
      }
    }
  }

  lemma ResultKeeps(w: World, a: Action)
    requires Inv(w) && Enabled(w, a) && (a.SetCompleted? || a.SaveResult? || a.Restart?)
    ensures Inv(Next(w, a))
  {
  }

  lemma ConcludeKeeps(w: World, a: Action)
    requires Inv(w) && Enabled(w, a) && a.Conclude?
    ensures RecordsOk(Next(w, a)) && GenerationOk(Next(w, a)) && PhaseOk(Next(w, a)) && TornOk(Next(w, a))
  {
  }

  /** Every step keeps the invariant. */
  lemma StepKeeps(w: World, a: Action)
    requires Inv(w) && Enabled(w, a)
    ensures Inv(Next(w, a))
  {
    if a.Enqueue? || a.Retain? {
      EventKeepsRecords(w, a);
      EventKeepsGeneration(w, a);
      EventKeepsPhase(w, a);
      EventKeepsTorn(w, a);
    } else if a.Recheck? {
      RecheckKeepsRecords(w, a);
      RecheckKeepsPhase(w, a);
    } else if a.Conclude? {
      ConcludeKeeps(w, a);
    } else if a.SetCompleted? || a.SaveResult? || a.Restart? {
      ResultKeeps(w, a);
    } else if a.SavePlan? || a.AssignPlan? {
      PlanKeeps(w, a);
    } else {
      TurnKeeps(w, a);
    }
  }

  // ---------------------------------------------------------------- runs

  /** Action `i` leads from world `i` to world `i + 1`. */
  ghost predicate StepAt(ws: seq<World>, acts: seq<Action>, i: nat)
    requires |ws| == |acts| + 1 && i < |acts|
  {
    Enabled(ws[i], acts[i]) && ws[i + 1] == Next(ws[i], acts[i])
  }

  /** A run: any sequence of actions from saved records on. */
  ghost predicate Run(ws: seq<World>, acts: seq<Action>) {
    && |ws| == |acts| + 1 && Initial(ws[0])
    && forall i {:trigger StepAt(ws, acts, i)} :: 0 <= i < |acts| ==> StepAt(ws, acts, i)
  }

  lemma {:induction false} RunKeeps(ws: seq<World>, acts: seq<Action>, n: nat)
    requires Run(ws, acts) && n <= |acts|
    ensures Inv(ws[n])
  {
    if n == 0 {
      InitialInv(ws[0]);
    } else {
      RunKeeps(ws, acts, n - 1);
      assert StepAt(ws, acts, n - 1);
      StepKeeps(ws[n - 1], acts[n - 1]);
    }
  }

  // ---------------------------------------------------------------- the queue never drops work

  /** A job leaves a running queue in one way only: its removal was saved, no event for it was accepted since
      the pass began, and every target configured at the pass's last look has acknowledged the content that
      was found unchanged. */
  lemma LeavesOnlyAcknowledged(w: World, a: Action, p: string)
    requires Inv(w) && Enabled(w, a) && a != Restart
    requires p in w.q.jobs && p !in Next(w, a).q.jobs
    ensures a.Conclude? && a.saves && w.q.phase == Done(p, w.q.jobs[p].generation, true) && w.clean
    ensures p !in Next(w, a).q.saved
    ensures var r := w.q.jobs[p].state;
      && w.checked == Record(r.fp, r.targets, {}) && r.targets != {}
      && forall k :: k in r.targets ==> Ack(p, r.fp, k) in w.acks
  {
  }

  /** An accepted event keeps its path in the queue, and makes the pass under way unable to retire it. */
  lemma EventKeepsJob(w: World, a: Action, p: string)
    requires Inv(w) && Enabled(w, a) && Accepts(w.q, a, p)
    ensures p in Next(w, a).q.jobs
    ensures Busy(w.q) && w.q.phase.path == p ==> !Next(w, a).clean
  {
  }

  /** The worker is in a pass over `p`, past reading the generation. */
  predicate InPass(q: Queue, p: string) {
    Busy(q) && !q.phase.Picked? && q.phase.path == p
  }

  /** Action `b` began the pass over `p`, and no event for `p` was accepted from then up to action `n`. */
  ghost predicate QuietSince(ws: seq<World>, acts: seq<Action>, n: nat, p: string, b: nat)
    requires |ws| == |acts| + 1 && n <= |acts|
  {
    && b < n && acts[b] == Begin && ws[b].q.phase == Picked(p)
    && forall m :: b < m < n ==> !Accepts(ws[m].q, acts[m], p)
  }

  lemma PassStep(w: World, a: Action, p: string)
    requires Inv(w) && Enabled(w, a) && InPass(Next(w, a).q, p) && Next(w, a).clean
    ensures if a == Begin then w.q.phase == Picked(p) else InPass(w.q, p) && w.clean && !Accepts(w.q, a, p)
  {
  }

  lemma {:induction false} CleanPassBegan(ws: seq<World>, acts: seq<Action>, n: nat, p: string) returns (b: nat)
    requires Run(ws, acts) && n <= |acts| && InPass(ws[n].q, p) && ws[n].clean
    ensures QuietSince(ws, acts, n, p, b)
  {
    assert n > 0;
    RunKeeps(ws, acts, n - 1);
    assert StepAt(ws, acts, n - 1);
    PassStep(ws[n - 1], acts[n - 1], p);
    if acts[n - 1] == Begin {
      b := n - 1;
    } else {
      b := CleanPassBegan(ws, acts, n - 1, p);
    }
  }

  /** Over whole runs: whenever the queue lets go of a path, a pass over it had begun after the last event
      accepted for it, and ended with every configured target acknowledged for the unchanged content. */
  lemma NeverDropsWork(ws: seq<World>, acts: seq<Action>, n: nat, p: string) returns (b: nat)
    requires Run(ws, acts) && n < |acts| && acts[n] != Restart
    requires p in ws[n].q.jobs && p !in ws[n + 1].q.jobs
    ensures QuietSince(ws, acts, n, p, b)
    ensures acts[n].Conclude? && acts[n].saves && p !in ws[n + 1].q.saved
    ensures var r := ws[n].q.jobs[p].state;
      && r.targets != {} && ws[n].checked == Record(r.fp, r.targets, {})
      && forall k :: k in r.targets ==> Ack(p, r.fp, k) in ws[n].acks
  {
    RunKeeps(ws, acts, n);
    assert StepAt(ws, acts, n);
    LeavesOnlyAcknowledged(ws[n], acts[n], p);
    b := CleanPassBegan(ws, acts, n, p);
  }

  /** The same for the saved records, over runs with any number of restarts: a record is removed only at the end of a
      complete pass that began after the last accepted event. */
  lemma SavedLeavesOnlyComplete(ws: seq<World>, acts: seq<Action>, n: nat, p: string) returns (b: nat)
    requires Run(ws, acts) && n < |acts|
    requires p in ws[n].q.saved && p !in ws[n + 1].q.saved
    ensures QuietSince(ws, acts, n, p, b)
    ensures acts[n].Conclude? && acts[n].saves && p !in ws[n + 1].q.jobs
    ensures p in ws[n].q.jobs
    ensures var r := ws[n].q.jobs[p].state;
      && r.targets != {} && ws[n].checked == Record(r.fp, r.targets, {})
      && forall k :: k in r.targets ==> Ack(p, r.fp, k) in ws[n].acks
  {
    RunKeeps(ws, acts, n);
    assert StepAt(ws, acts, n);
    b := NeverDropsWork(ws, acts, n, p);
  }

  /** A complete pass over `p` ends and its removal is saved. */
  predicate Retires(w: World, a: Action, p: string) {
    a.Conclude? && a.saves && w.q.phase.Done? && w.q.phase.path == p && w.q.phase.complete
  }

  /** Once saved, a path outlives any number of restarts until a complete pass over it ends: every restart queues it
      again with the record last saved, and queues nothing else. */
  lemma {:induction false} RestartFindsSaved(ws: seq<World>, acts: seq<Action>, i: nat, n: nat, p: string)
    requires Run(ws, acts) && i <= n < |acts| && p in ws[i].q.saved
    requires forall m :: i <= m < n ==> !Retires(ws[m], acts[m], p)
    ensures p in ws[n].q.saved && p in ws[n].q.jobs
    ensures acts[n] == Restart ==> ws[n + 1].q.jobs.Keys == ws[n].q.saved.Keys
    ensures acts[n] == Restart ==> ws[n + 1].q.jobs[p] == Job(ws[n].q.saved[p], 0.0, 0, 0, false)
  {
    RunKeeps(ws, acts, n);
    assert StepAt(ws, acts, n);
    if i < n {
      RestartFindsSaved(ws, acts, i, n - 1, p);
      assert StepAt(ws, acts, n - 1);
    }
  }

  // ---------------------------------------------------------------- no repeated delivery

  /** In every run, restarts included: an upload goes to no target that the job's record or the saved record
      lists as completed for this content and folder; and the record is saved before anything is sent. */
  lemma NoRepeatedDelivery(ws: seq<World>, acts: seq<Action>, n: nat, k: string)
    requires Run(ws, acts) && n < |acts| && acts[n].Attempt? && ws[n].q.phase.Planned?
    requires k in Owed(ws[n].q.phase.keys, ws[n].q.phase.completed)
    ensures var q := ws[n].q;
      && q.phase.path in q.jobs && q.phase.path in q.saved
      && q.jobs[q.phase.path].state.fp == q.phase.fp && k !in q.jobs[q.phase.path].state.completed
      && (q.saved[q.phase.path].fp == q.phase.fp ==> k !in q.saved[q.phase.path].completed)
  {
    RunKeeps(ws, acts, n);
    assert StepAt(ws, acts, n);
  }

  /** In every run, restarts included: what an upload skips had acknowledged exactly this content. */
  lemma SkippedWasAcknowledged(ws: seq<World>, acts: seq<Action>, n: nat, k: string)
    requires Run(ws, acts) && n < |acts| && acts[n].Attempt? && ws[n].q.phase.Planned?
    requires k in ws[n].q.phase.keys && k !in Owed(ws[n].q.phase.keys, ws[n].q.phase.completed)
    ensures Ack(ws[n].q.phase.path, ws[n].q.phase.fp, k) in ws[n].acks
  {
    RunKeeps(ws, acts, n);
    assert StepAt(ws, acts, n);
  }

  // ---------------------------------------------------------------- saved records

  /** A saved record lists only configured targets as completed, exactly as long as no `retain` lands between
      the two assignments of a record whose completed target is no longer configured. */
  lemma SavedSubsetIffNeverTorn(ws: seq<World>, acts: seq<Action>)
    requires Run(ws, acts) && ws[0].torn == {}
    ensures (forall i, p :: 0 <= i < |ws| && p in ws[i].q.saved ==> SubsetOk(ws[i].q.saved[p])) <==>
            (forall i :: 0 <= i < |acts| ==> !Tears(ws[i], acts[i]))
  {
    if i :| 0 <= i < |acts| && Tears(ws[i], acts[i]) {
      assert StepAt(ws, acts, i);
      assert !SubsetOk(ws[i + 1].q.saved[acts[i].path]);
    }
    if forall i :: 0 <= i < |acts| ==> !Tears(ws[i], acts[i]) {
      forall i, p | 0 <= i < |ws| && p in ws[i].q.saved ensures SubsetOk(ws[i].q.saved[p]) {
        UntornRun(ws, acts, i);
        RunKeeps(ws, acts, i);
      }
    }
  }

  lemma {:induction false} UntornRun(ws: seq<World>, acts: seq<Action>, n: nat)
    requires Run(ws, acts) && ws[0].torn == {} && n <= |acts|
    requires forall i :: 0 <= i < |acts| ==> !Tears(ws[i], acts[i])
    ensures ws[n].torn == {}
  {
    if n > 0 {
      UntornRun(ws, acts, n - 1);
      assert StepAt(ws, acts, n - 1);
    }
  }

  const FP := [1, 1, 1]
  const BOTH := map["a" := "host-a", "b" := "host-b"]

  /** A queue with the one path `p`, for the example below. */
  function Sample(state: Record, gen: nat, saved: Record, phase: Phase, clean: bool, checked: Record,
          torn: set<string>): World {
    World(Queue(map["p" := Job(state, 0.0, 0, gen, false)], map[], map["p" := saved], false, phase),
          {Ack("p", FP, "a")}, clean, checked, torn, 2.0, 300.0)
  }

  const FULL := Record(FP, {"a", "b"}, {"a"})
  const HALF := Record(FP, {"b"}, {"a"})
  const LAST_LOOK := Record(FP, {"b"}, {})

  lemma SingleJob(j: Job, k: Job)
    ensures map["p" := j]["p" := k] == map["p" := k]
  {
  }

  lemma SingleRecord(r: Record, s: Record)
    ensures map["p" := r]["p" := s] == map["p" := s]
  {
  }

  lemma SampleStarts()
    ensures var w := Sample(FULL, 0, FULL, Idle, false, EMPTY, {});
      Initial(w) && Enabled(w, Pick("p", 0.0)) && Next(w, Pick("p", 0.0)) ==
          Sample(FULL, 0, FULL, Picked("p"), false, EMPTY, {})
  {
    assert Load(map["p" := FULL]).jobs == map["p" := Job(FULL, 0.0, 0, 0, false)];
  }

  /** The upload is owed to `b` only. */
  lemma SamplePlanned()
    ensures Next(Sample(FULL, 0, FULL, Started("p", 0), true, EMPTY, {}), SavePlan(FP, BOTH, true)) ==
            Sample(FULL, 0, FULL, Saved("p", 0, FP, BOTH, {"a"}), true, EMPTY, {})
    ensures Next(Sample(FULL, 0, FULL, Saved("p", 0, FP, BOTH, {"a"}), true, EMPTY, {}), AssignPlan) ==
            Sample(FULL, 0, FULL, Planned("p", 0, FP, BOTH, {"a"}), true, EMPTY, {})
  {
    assert BOTH.Keys == {"a", "b"};
    assert Carried(FULL, FP, BOTH) == {"a"};
    SingleRecord(FULL, FULL);
    SingleJob(Job(FULL, 0.0, 0, 0, false), Job(FULL, 0.0, 0, 0, false));
  }

  /** The upload fails and `b` alone is configured now. */
  lemma SampleRechecked()
    ensures Next(Sample(FULL, 0, FULL, Uploaded("p", 0, FP, BOTH, {"a"}, {}), true, EMPTY, {}),
        Recheck(FP, {"b"}, true)) ==
            Sample(HALF, 0, FULL, HalfWritten("p", 0, FP, {"b"}, {}), true, LAST_LOOK, {})
  {
    assert Acknowledged(BOTH, {"a"}, {}, {"b"}) == {};
    SingleJob(Job(FULL, 0.0, 0, 0, false), Job(HALF, 0.0, 0, 0, false));
  }

  /** `retain` falls between the two assignments. */
  lemma SampleTorn()
    ensures Next(Sample(HALF, 0, FULL, HalfWritten("p", 0, FP, {"b"}, {}), true, LAST_LOOK, {}), Retain("p", true)) ==
            Sample(HALF, 1, HALF, HalfWritten("p", 0, FP, {"b"}, {}), false, LAST_LOOK, {"p"})
  {
    assert "a" in HALF.completed && "a" !in HALF.targets;
    SingleRecord(FULL, HALF);
    SingleJob(Job(HALF, 0.0, 0, 0, false), Job(HALF, 0.0, 0, 1, false));
  }

  lemma Extend(ws: seq<World>, acts: seq<Action>, a: Action, next: World) returns (vs: seq<World>, more: seq<Action>)
    requires Run(ws, acts) && Enabled(ws[|acts|], a) && next == Next(ws[|acts|], a)
    ensures Run(vs, more) && more == acts + [a] && vs == ws + [next]
  {
    vs, more := ws + [next], acts + [a];
    forall i | 0 <= i < |more| ensures StepAt(vs, more, i) {
      if i < |acts| { assert StepAt(ws, acts, i); }
    }
  }

  /** Such a record does get saved: reader `a` is unregistered while the upload to `b` runs, and the observer
      hands the path over for shutdown at the wrong moment. */
  lemma TornSaveHappens() returns (ws: seq<World>, acts: seq<Action>)
    ensures Run(ws, acts) && ws[0].torn == {}
    ensures "p" in ws[|acts|].q.saved && !SubsetOk(ws[|acts|].q.saved["p"])
  {
    SampleStarts();
    SamplePlanned();
    SampleRechecked();
    SampleTorn();
    ws, acts := [Sample(FULL, 0, FULL, Idle, false, EMPTY, {})], [];
    ws, acts := Extend(ws, acts, Pick("p", 0.0), Sample(FULL, 0, FULL, Picked("p"), false, EMPTY, {}));
    ws, acts := Extend(ws, acts, Begin, Sample(FULL, 0, FULL, Started("p", 0), true, EMPTY, {}));
    ws, acts := Extend(ws, acts, SavePlan(FP, BOTH, true),
        Sample(FULL, 0, FULL, Saved("p", 0, FP, BOTH, {"a"}), true, EMPTY, {}));
    ws, acts := Extend(ws, acts, AssignPlan, Sample(FULL, 0, FULL, Planned("p", 0, FP, BOTH, {"a"}), true, EMPTY, {}));
    ws, acts := Extend(ws, acts, Attempt({}),
        Sample(FULL, 0, FULL, Uploaded("p", 0, FP, BOTH, {"a"}, {}), true, EMPTY, {}));
    ws, acts := Extend(ws, acts, Recheck(FP, {"b"}, true),
        Sample(HALF, 0, FULL, HalfWritten("p", 0, FP, {"b"}, {}), true, LAST_LOOK, {}));
    ws, acts := Extend(ws, acts, Retain("p", true),
        Sample(HALF, 1, HALF, HalfWritten("p", 0, FP, {"b"}, {}), false, LAST_LOOK, {"p"}));
    assert "a" in HALF.completed && "a" !in HALF.targets;
  }
}
