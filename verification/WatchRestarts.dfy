/**
 Duplicate events for finished files, in runs with restarts: the record of a finished file lives in memory
 only, so a restart forgets it unless a later event had it saved again.
 */
module WatchRestarts {
  import opened WatchQueue
  import opened WatchProofs
  import opened WatchDelays

  // ---------------------------------------------------------------- one pass

  /** One pass after a duplicate event for a finished file takes its record up again: if content and targets are as they
      were, the pass owes nothing, so nothing is uploaded, and the file is finished with the same record. */
  lemma DuplicatePassFinishes(ws: seq<World>, acts: seq<Action>, n: nat, p: string, gen: nat, keys: map<string, string>,
    ok: set<string>)
    requires Run(ws, acts) && n <= |acts|
    requires var q := ws[n].q; p in q.finished && p !in q.jobs && !q.stopped && q.finished[p].targets == keys.Keys
    ensures var w := ws[n]; var r, q := w.q.finished[p], Added(w.q, p, false, true).(phase := Started(p, gen));
      var planned := PlanAssigned(PlanSaved(q, r.fp, keys, true));
      && Owed(planned.phase.keys, planned.phase.completed) == {}
      && var last := ResultSaved(Completed(Rechecked(Attempted(planned, ok), r.fp, keys.Keys, true)), true);
         last.phase == Done(p, gen, true) && last.jobs[p].state == r
  {
    RunKeeps(ws, acts, n);
    var w := ws[n];
    var r, q := w.q.finished[p], Added(w.q, p, false, true).(phase := Started(p, gen));
    assert Carried(r, r.fp, keys) == keys.Keys;
    var planned := PlanAssigned(PlanSaved(q, r.fp, keys, true));
    assert Owed(planned.phase.keys, planned.phase.completed) == {};
    assert Acknowledged(keys, keys.Keys, {}, keys.Keys) == keys.Keys;
  }

  // ---------------------------------------------------------------- duplicate events over runs with restarts

  /** What action `a` finds out about `p` is as `r` says: same content, same targets. */
  predicate Unchanged(w: World, a: Action, p: string, r: Record) {
    && (a.SavePlan? && w.q.phase.Started? && w.q.phase.path == p ==> a.fp == r.fp && a.keys.Keys == r.targets)
    && (a.Recheck? && w.q.phase.Uploaded? && w.q.phase.path == p ==> a.fp == r.fp && a.current == r.targets)
  }

  /** Wherever the queue keeps a record of `p`, it is `r`. */
  predicate Recorded(q: Queue, p: string, r: Record) {
    && (p in q.jobs ==> q.jobs[p].state == r)
    && (p !in q.jobs ==> p in q.finished && q.finished[p] == r)
    && (p in q.saved ==> q.saved[p] == r)
  }

  /** And the worker's local variables say nothing else. */
  predicate Remembers(q: Queue, p: string, r: Record) {
    && Recorded(q, p, r)
    && (Busy(q) && q.phase.path == p ==>
          match q.phase
          case Saved(_, _, fp, keys, completed) => fp == r.fp && keys.Keys == r.targets && completed == r.targets
          case Planned(_, _, fp, keys, completed) => fp == r.fp && keys.Keys == r.targets && completed == r.targets
          case Uploaded(_, _, fp, keys, completed, _) => fp == r.fp && keys.Keys == r.targets && completed == r.targets
          case HalfWritten(_, _, fp, current, acked) => fp == r.fp && current == r.targets && acked == r.targets
          case Written(_, _, fp, current, acked) => fp == r.fp && current == r.targets && acked == r.targets
          case _ => true)
  }

  /** A restart that finds no saved record of `p`. */
  predicate Forgets(w: World, a: Action, p: string) {
    a == Restart && p !in w.q.saved
  }

  lemma RememberedEvent(w: World, a: Action, p: string, r: Record)
    requires Inv(w) && Enabled(w, a) && Finished(r) && Remembers(w.q, p, r) && Unchanged(w, a, p, r)
    requires a.Enqueue? || a.Retain? || a.Stop? || a.Pick? || a.Begin? || a.GiveUp?
    ensures Remembers(Next(w, a).q, p, r)
  {
  }

  lemma RememberedPlan(w: World, a: Action, p: string, r: Record)
    requires Inv(w) && Enabled(w, a) && Finished(r) && Remembers(w.q, p, r) && Unchanged(w, a, p, r)
    requires a.SavePlan? || a.AssignPlan? || a.Attempt?
    ensures Remembers(Next(w, a).q, p, r)
  {
  }

  lemma RememberedRecheck(w: World, a: Action, p: string, r: Record)
    requires Inv(w) && Enabled(w, a) && Finished(r) && Remembers(w.q, p, r) && Unchanged(w, a, p, r)
    requires a.Recheck? || a.SetCompleted?
    ensures Remembers(Next(w, a).q, p, r)
  {
  }

  lemma RememberedEnd(w: World, a: Action, p: string, r: Record)
    requires Inv(w) && Enabled(w, a) && Finished(r) && Remembers(w.q, p, r) && Unchanged(w, a, p, r)
    requires a.SaveResult? || a.Conclude?
    ensures Remembers(Next(w, a).q, p, r)
  {
  }

  /** A restart forgets a finished file exactly when its record is not saved; nothing else does. */
  lemma ForgottenIff(w: World, a: Action, p: string, r: Record)
    requires Inv(w) && Enabled(w, a) && Finished(r) && Remembers(w.q, p, r) && Unchanged(w, a, p, r)
    ensures Remembers(Next(w, a).q, p, r) <==> !Forgets(w, a, p)
    ensures Forgets(w, a, p) ==> p !in Next(w, a).q.jobs && p !in Next(w, a).q.finished
  {
    if a.SavePlan? || a.AssignPlan? || a.Attempt? {
      RememberedPlan(w, a, p, r);
    } else if a.Recheck? || a.SetCompleted? {
      RememberedRecheck(w, a, p, r);
    } else if a.SaveResult? || a.Conclude? {
      RememberedEnd(w, a, p, r);
    } else if a != Restart {
      RememberedEvent(w, a, p, r);
    }
  }

  /** At action `i`, `p` is finished as `r`; from then up to action `n` file and targets stay as they were. */
  ghost predicate StaysAsItWas(ws: seq<World>, acts: seq<Action>, i: nat, n: nat, p: string, r: Record)
    requires |ws| == |acts| + 1
  {
    && i <= n <= |acts| && p in ws[i].q.finished && p !in ws[i].q.jobs && r == ws[i].q.finished[p]
    && forall m :: i <= m < n ==> Unchanged(ws[m], acts[m], p, r)
  }

  lemma RememberedStep(ws: seq<World>, acts: seq<Action>, n: nat, p: string, r: Record)
    requires |ws| == |acts| + 1 && n < |acts| && StepAt(ws, acts, n) && Inv(ws[n]) && Finished(r) &&
      Remembers(ws[n].q, p, r)
    requires Unchanged(ws[n], acts[n], p, r) && !Forgets(ws[n], acts[n], p)
    ensures Remembers(ws[n + 1].q, p, r)
  {
    ForgottenIff(ws[n], acts[n], p, r);
  }

  lemma {:induction false} RememberedRun(ws: seq<World>, acts: seq<Action>, i: nat, n: nat, p: string, r: Record)
    requires Run(ws, acts) && StaysAsItWas(ws, acts, i, n, p, r)
    requires forall m :: i <= m < n ==> !Forgets(ws[m], acts[m], p)
    ensures Remembers(ws[n].q, p, r) && Finished(r)
  {
    RunKeeps(ws, acts, i);
    if i < n {
      RememberedRun(ws, acts, i, n - 1, p, r);
      RunKeeps(ws, acts, n - 1);
      RememberedStep(ws, acts, n - 1, p, r);
    }
  }

  /** Over every run: a finished file that stays as it was is remembered throughout if and only if every restart
      finds its record saved. */
  lemma RememberedIff(ws: seq<World>, acts: seq<Action>, i: nat, n: nat, p: string, r: Record)
    requires Run(ws, acts) && StaysAsItWas(ws, acts, i, n, p, r)
    ensures (forall m :: i <= m <= n ==> Remembers(ws[m].q, p, r)) <==>
        (forall m :: i <= m < n ==> !Forgets(ws[m], acts[m], p))
  {
    if forall m :: i <= m < n ==> !Forgets(ws[m], acts[m], p) {
      forall m | i <= m <= n ensures Remembers(ws[m].q, p, r) { RememberedRun(ws, acts, i, m, p, r); }
    } else if forall m :: i <= m <= n ==> Remembers(ws[m].q, p, r) {
      var m :| i <= m < n && Forgets(ws[m], acts[m], p);
      assert StepAt(ws, acts, m) && Remembers(ws[m + 1].q, p, r);
    }
  }

  /** However many events, handovers, restarts, failed passes and passes over other files fall in between: as long as a
      finished file and its targets stay as they were and every restart finds its record saved, no pass over it owes
      anything, so nothing is uploaded, its record stays the same, and a pass that gets to saving its result is
      complete if the save succeeds. */
  lemma DuplicateEventUploadsNothing(ws: seq<World>, acts: seq<Action>, i: nat, n: nat, p: string, r: Record)
    requires Run(ws, acts) && StaysAsItWas(ws, acts, i, n, p, r)
    requires forall m :: i <= m < n ==> !Forgets(ws[m], acts[m], p)
    ensures var q := ws[n].q;
      && Recorded(q, p, r)
      && (q.phase.Planned? && q.phase.path == p ==> Owed(q.phase.keys, q.phase.completed) == {})
      && (q.phase.Written? && q.phase.path == p && p in q.jobs ==>
          ResultSaved(q, true).phase == Done(p, q.phase.gen, true))
  {
    RememberedRun(ws, acts, i, n, p, r);
  }

  // ---------------------------------------------------------------- after a restart that forgets

  /** Nothing is known of `p`, and no pass over it has a plan yet. */
  predicate Unknown(q: Queue, p: string) {
    && p !in q.finished && (p in q.jobs ==> q.jobs[p].state == EMPTY) && (p in q.saved ==> q.saved[p] == EMPTY)
    && (Busy(q) && q.phase.path == p ==> q.phase.Picked? || q.phase.Started? || (q.phase.Done? && !q.phase.complete))
  }

  /** A plan for `p` is saved. */
  predicate Plans(w: World, a: Action, p: string) {
    a.SavePlan? && a.saves && w.q.phase.Started? && w.q.phase.path == p
  }

  lemma UnknownEvent(w: World, a: Action, p: string)
    requires Inv(w) && Enabled(w, a) && Unknown(w.q, p) && (a.Enqueue? || a.Retain? || a.Restart?)
    ensures Unknown(Next(w, a).q, p)
  {
  }

  lemma UnknownPass(w: World, a: Action, p: string)
    requires Inv(w) && Enabled(w, a) && Unknown(w.q, p) && !Plans(w, a, p) && !a.Enqueue? && !a.Retain? && !a.Restart?
    ensures Unknown(Next(w, a).q, p)
  {
  }

  lemma UnknownStep(w: World, a: Action, p: string)
    requires Inv(w) && Enabled(w, a) && Unknown(w.q, p) && !Plans(w, a, p)
    ensures Unknown(Next(w, a).q, p)
  {
    if a.Enqueue? || a.Retain? || a.Restart? { UnknownEvent(w, a, p); } else { UnknownPass(w, a, p); }
  }

  lemma {:induction false} UnknownRun(ws: seq<World>, acts: seq<Action>, k: nat, n: nat, p: string)
    requires Run(ws, acts) && k < n <= |acts| && Forgets(ws[k], acts[k], p)
    requires forall m :: k < m < n ==> !Plans(ws[m], acts[m], p)
    ensures Unknown(ws[n].q, p)
  {
    RunKeeps(ws, acts, n - 1);
    assert StepAt(ws, acts, n - 1);
    if k < n - 1 {
      UnknownRun(ws, acts, k, n - 1, p);
      UnknownStep(ws[n - 1], acts[n - 1], p);
    }
  }

  /** The first plan for a file after a restart that forgot it owes every target, whoever acknowledged it before. */
  lemma ForgottenOwesAll(ws: seq<World>, acts: seq<Action>, k: nat, n: nat, p: string)
    requires Run(ws, acts) && k < n < |acts| && Forgets(ws[k], acts[k], p)
    requires (forall m :: k < m < n ==> !Plans(ws[m], acts[m], p)) && Plans(ws[n], acts[n], p)
    ensures var ph := ws[n + 1].q.phase;
      ph.Saved? && ph.path == p && ph.completed == {} && Owed(ph.keys, ph.completed) == acts[n].keys.Keys
  {
    UnknownRun(ws, acts, k, n, p);
    assert StepAt(ws, acts, n);
  }

  lemma {:induction false} FirstPlan(ws: seq<World>, acts: seq<Action>, k: nat, n: nat, p: string) returns (m: nat)
    requires Run(ws, acts) && k < n < |acts| && Plans(ws[n], acts[n], p)
    ensures k < m <= n && Plans(ws[m], acts[m], p) && forall j :: k < j < m ==> !Plans(ws[j], acts[j], p)
  {
    m := n;
    if j :| k < j < n && Plans(ws[j], acts[j], p) { m := FirstPlan(ws, acts, k, j, p); }
  }

  /** The plan that action `m` saved asks for no upload. */
  ghost predicate OwesNothing(ws: seq<World>, acts: seq<Action>, m: nat)
    requires |ws| == |acts| + 1 && m < |acts|
  {
    var ph := ws[m + 1].q.phase;
    ph.Saved? && Owed(ph.keys, ph.completed) == {}
  }

  lemma RememberedPlanOwesNothing(w: World, a: Action, p: string, r: Record)
    requires Inv(w) && Enabled(w, a) && Finished(r) && Remembers(w.q, p, r) && Unchanged(w, a, p, r) && Plans(w, a, p)
    ensures var ph := Next(w, a).q.phase; ph.Saved? && Owed(ph.keys, ph.completed) == {}
  {
  }

  /** Over every run: no pass over a finished file that stays as it was asks for an upload, if and only if no pass
      over it follows a restart that finds its record unsaved. */
  lemma NoRepeatIff(ws: seq<World>, acts: seq<Action>, i: nat, n: nat, p: string, r: Record)
    requires Run(ws, acts) && StaysAsItWas(ws, acts, i, n, p, r)
    ensures (forall m :: i <= m < n && Plans(ws[m], acts[m], p) ==> OwesNothing(ws, acts, m)) <==>
            (forall k, m :: i <= k < m < n && Forgets(ws[k], acts[k], p) ==> !Plans(ws[m], acts[m], p))
  {
    RunKeeps(ws, acts, i);
    assert Finished(r);
    if k, m :| i <= k < m < n && Forgets(ws[k], acts[k], p) && Plans(ws[m], acts[m], p) {
      var first := FirstPlan(ws, acts, k, m, p);
      ForgottenOwesAll(ws, acts, k, first, p);
      assert Unchanged(ws[first], acts[first], p, r) && !OwesNothing(ws, acts, first);
    } else {
      forall m | i <= m < n && Plans(ws[m], acts[m], p) ensures OwesNothing(ws, acts, m) {
        assert Unchanged(ws[m], acts[m], p, r);
        RememberedRun(ws, acts, i, m, p, r);
        RunKeeps(ws, acts, m);
        assert StepAt(ws, acts, m);
        RememberedPlanOwesNothing(ws[m], acts[m], p, r);
      }
    }
  }

  // ---------------------------------------------------------------- a run that delivers twice

  const SENT_ACK := {Ack("p", FP, "a")}

  /** The queue of the example once its path is finished, and then forgotten. */
  function Empty(finished: map<string, Record>): World {
    World(Queue(map[], finished, map[], false, Idle), SENT_ACK, true, SEEN, {}, 2.0, 300.0)
  }

  /** The path queued again after the restart. */
  function Anew(phase: Phase): World {
    World(Queue(map["p" := Job(EMPTY, 0.0, 0, 0, false)], map[], map["p" := EMPTY], false, phase),
          SENT_ACK, true, SEEN, {}, 2.0, 300.0)
  }

  lemma FinishStep()
    ensures Next(Single(0.0, 0, Done("p", 0, true), true, SEEN), Conclude(true, 0.0)) == Empty(map["p" := SENT])
  {
    assert map["p" := Job(SENT, 0.0, 0, 0, false)] - {"p"} == map[];
    assert map["p" := SENT] - {"p"} == map[];
  }

  lemma AgainSteps()
    ensures Next(Empty(map["p" := SENT]), Restart) == Empty(map[])
    ensures Next(Empty(map[]), Enqueue("p", true)) == Anew(Idle)
    ensures Enabled(Anew(Idle), Pick("p", 0.0)) && Next(Anew(Idle), Pick("p", 0.0)) == Anew(Picked("p"))
    ensures Next(Anew(Picked("p")), Begin) == Anew(Started("p", 0))
  {
    assert Load(map[]).jobs == map[];
    assert forall m: map<string, Record> :: m == map[] ==> Load(m) == Queue(map[], map[], map[], false, Idle);
  }

  lemma AgainPlanned()
    ensures Next(Anew(Started("p", 0)), SavePlan(FP, ONE, true)).q.phase == Saved("p", 0, FP, ONE, {})
  {
    assert Carried(EMPTY, FP, ONE) == {};
  }

  lemma SentOnce() returns (ws: seq<World>, acts: seq<Action>)
    ensures Run(ws, acts) && ws[|acts|] == Empty(map["p" := SENT])
  {
    SingleStarts();
    FinishStep();
    CompleteRecheck(0.0, 0);
    CompleteResult(0.0, 0);
    ws, acts := PlannedPass([Single(0.0, 0, Idle, true, EMPTY)], [], 0.0, 0, 0.0);
    ws, acts := Extend(ws, acts, Recheck(FP, {"a"}, true),
        Single(0.0, 0, HalfWritten("p", 0, FP, {"a"}, {"a"}), true, SEEN));
    ws, acts := Extend(ws, acts, SetCompleted, Single(0.0, 0, Written("p", 0, FP, {"a"}, {"a"}), true, SEEN));
    ws, acts := Extend(ws, acts, SaveResult(true), Single(0.0, 0, Done("p", 0, true), true, SEEN));
    ws, acts := Extend(ws, acts, Conclude(true, 0.0), Empty(map["p" := SENT]));
  }

  const AGAIN := [Restart, Enqueue("p", true), Pick("p", 0.0), Begin, SavePlan(FP, ONE, true)]

  lemma SentAgain(ws: seq<World>, acts: seq<Action>) returns (vs: seq<World>)
    requires Run(ws, acts) && ws[|acts|] == Empty(map["p" := SENT])
    ensures Run(vs, acts + AGAIN) && vs[..|ws|] == ws
    ensures vs[|acts| + 5] == Next(Anew(Started("p", 0)), SavePlan(FP, ONE, true))
  {
    AgainSteps();
    var more: seq<Action>;
    vs, more := Extend(ws, acts, Restart, Empty(map[]));
    vs, more := Extend(vs, more, Enqueue("p", true), Anew(Idle));
    vs, more := Extend(vs, more, Pick("p", 0.0), Anew(Picked("p")));
    vs, more := Extend(vs, more, Begin, Anew(Started("p", 0)));
    vs, more := Extend(vs, more, SavePlan(FP, ONE, true), Next(Anew(Started("p", 0)), SavePlan(FP, ONE, true)));
    assert more == acts + AGAIN;
  }

  /** The file is finished, the program restarted, and one more event plans to send it to the reader that has it. */
  lemma RestartSendsAgain() returns (ws: seq<World>, acts: seq<Action>, i: nat)
    ensures Run(ws, acts) && i < |acts| && StaysAsItWas(ws, acts, i, |acts|, "p", SENT)
    ensures Forgets(ws[i], acts[i], "p")
    ensures Ack("p", FP, "a") in ws[|acts|].acks
    ensures ws[|acts|].q.phase == Saved("p", 0, FP, ONE, {}) && "a" in Owed(ONE, {})
  {
    var before: seq<World>;
    before, acts := SentOnce();
    i := |acts|;
    ws := SentAgain(before, acts);
    acts := acts + AGAIN;
    AgainPlanned();
    assert ws[i] == before[i];
    assert ONE.Keys == SENT.targets;
    forall m | i <= m < |acts| ensures Unchanged(ws[m], acts[m], "p", SENT) {
      assert acts[m] == AGAIN[m - i];
    }
  }
}
