/**
 What an event does to the Watch queue, over any run: when its path is put off and when it is due, and which
 acknowledgements a pass carries over and adds to the record.
 */
module WatchEvents {
  import opened WatchQueue
  import opened WatchProofs

  // ---------------------------------------------------------------- what an event does

  /** An event for `p` that is to be served now, on a queue that still takes events. */
  predicate Fresh(q: Queue, a: Action, p: string) {
    a.Enqueue? && a.path == p && !q.stopped
  }

  /** A job is put off exactly when it was before and no fresh event or restart has woken it, or when `retain` has just
      brought it in. */
  lemma DeferredIff(w: World, a: Action, p: string)
    requires Inv(w) && Enabled(w, a) && p in Next(w, a).q.jobs
    ensures Next(w, a).q.jobs[p].deferred <==>
      && !Fresh(w.q, a, p) && a != Restart
      && if p in w.q.jobs then w.q.jobs[p].deferred else a.Retain? && a.path == p
  {
  }

  /** A fresh event leaves its path queued, not put off and with another pass owed; a new job and one that was put off
      are due at once, any other keeps its delay. */
  lemma FreshEventWakes(w: World, a: Action, p: string)
    requires Inv(w) && Enabled(w, a) && Fresh(w.q, a, p)
    ensures var next := Next(w, a).q;
      && p in next.jobs && !next.jobs[p].deferred
      && (if p in w.q.jobs then
            && next.jobs[p].generation > w.q.jobs[p].generation
            && next.jobs[p].due == (if w.q.jobs[p].deferred then 0.0 else w.q.jobs[p].due)
            && next.jobs[p].state == w.q.jobs[p].state && next.jobs[p].failures == w.q.jobs[p].failures
          else
            && next.jobs[p].due == 0.0 && next.jobs[p].failures == 0
            && next.jobs[p].state == if p in w.q.finished then w.q.finished[p] else EMPTY)
      && next.saved == if p !in w.q.jobs && a.saves then w.q.saved[p := next.jobs[p].state] else w.q.saved
  {
  }

  /** What `stop` hands over is kept for the next start: the record is saved when saving works, and a job that was
      already queued stays as it was but for the pass now owed. */
  lemma RetainKeeps(w: World, a: Action)
    requires Inv(w) && Enabled(w, a) && a.Retain?
    ensures var next, p := Next(w, a).q, a.path;
      && p in next.jobs && (a.saves ==> p in next.saved && next.saved[p] == next.jobs[p].state)
      && (!a.saves ==> next.saved == w.q.saved)
      && (p in w.q.jobs ==>
            next.jobs[p] == w.q.jobs[p].(generation := next.jobs[p].generation) &&
            next.jobs[p].generation > w.q.jobs[p].generation)
  {
  }

  /** An event, fresh or handed over, concerns its own path only. */
  lemma EventIsLocal(w: World, a: Action, o: string)
    requires Inv(w) && Enabled(w, a) && (a.Enqueue? || a.Retain?) && o != a.path
    ensures var next := Next(w, a).q;
      && (o in next.jobs <==> o in w.q.jobs) && (o in w.q.jobs ==> next.jobs[o] == w.q.jobs[o])
      && (o in next.saved <==> o in w.q.saved) && (o in w.q.saved ==> next.saved[o] == w.q.saved[o])
      && next.finished == w.q.finished && next.phase == w.q.phase && next.stopped == w.q.stopped
  {
  }

  // ---------------------------------------------------------------- being put off, over runs

  /** `retain` brought `p` in by action `m`, and up to `n` it stayed queued with no fresh event and no restart. */
  ghost predicate PutOffSince(ws: seq<World>, acts: seq<Action>, m: nat, n: nat, p: string)
    requires |ws| == |acts| + 1
  {
    && m < n <= |acts| && acts[m].Retain? && acts[m].path == p && p !in ws[m].q.jobs
    && forall i :: m < i < n ==> p in ws[i].q.jobs && acts[i] != Restart && !Fresh(ws[i].q, acts[i], p)
  }

  /** Over every run: a queued path is put off exactly when `retain` brought it in and nothing has woken it since. */
  lemma {:induction false} PutOffIff(ws: seq<World>, acts: seq<Action>, n: nat, p: string)
    requires Run(ws, acts) && n <= |acts| && p in ws[n].q.jobs
    ensures ws[n].q.jobs[p].deferred <==> exists m :: PutOffSince(ws, acts, m, n, p)
  {
    if n > 0 {
      var w, a := ws[n - 1], acts[n - 1];
      RunKeeps(ws, acts, n - 1);
      assert StepAt(ws, acts, n - 1);
      DeferredIff(w, a, p);
      if p in w.q.jobs {
        PutOffIff(ws, acts, n - 1, p);
        if ws[n].q.jobs[p].deferred {
          var m :| PutOffSince(ws, acts, m, n - 1, p);
          assert PutOffSince(ws, acts, m, n, p);
        }
        if m :| PutOffSince(ws, acts, m, n, p) {
          assert PutOffSince(ws, acts, m, n - 1, p);
        }
      } else {
        if ws[n].q.jobs[p].deferred { assert PutOffSince(ws, acts, n - 1, n, p); }
        if m :| PutOffSince(ws, acts, m, n, p) { assert m == n - 1; }
      }
    }
  }

  // ---------------------------------------------------------------- what a pass records

  /** The plan carries over exactly the acknowledgements recorded for the same content and targets still configured. */
  lemma PlanCarriesOver(w: World, k: string)
    requires Inv(w) && Enabled(w, AssignPlan)
    ensures var was, now := w.q.jobs[w.q.phase.path].state, Next(w, AssignPlan).q.jobs[w.q.phase.path].state;
      && now.fp == w.q.phase.fp && now.targets == w.q.phase.keys.Keys
      && (k in now.completed <==> k in w.q.phase.keys && was.fp == w.q.phase.fp && k in was.completed)
  {
    assert PassOk(w);
  }

  /** The worker re-checked its source in step `m`, found it unchanged, and has not gone on yet. */
  ghost predicate Rechecking(ws: seq<World>, acts: seq<Action>, m: nat, n: nat)
    requires |ws| == |acts| + 1
  {
    && m < n <= |acts| && acts[m].Recheck? && ws[m].q.phase.Uploaded? && acts[m].fp == ws[m].q.phase.fp
    && ws[m].q.phase.path in ws[m].q.jobs
    && forall i :: m < i <= n ==> ws[i].q.phase.HalfWritten? && ws[i].q.phase == ws[n].q.phase
  }

  lemma {:induction false} RecheckedBefore(ws: seq<World>, acts: seq<Action>, n: nat) returns (m: nat)
    requires Run(ws, acts) && n <= |acts| && ws[n].q.phase.HalfWritten?
    ensures Rechecking(ws, acts, m, n)
    ensures var ph, was := ws[n].q.phase, ws[m].q.phase;
      && ph.path == was.path && ph.fp == was.fp && ph.current == acts[m].current
      && ph.acked == Acknowledged(was.keys, was.completed, was.ok, acts[m].current)
  {
    assert n > 0;
    assert StepAt(ws, acts, n - 1);
    if ws[n - 1].q.phase.HalfWritten? {
      m := RecheckedBefore(ws, acts, n - 1);
    } else {
      m := n - 1;
    }
  }

  /** Over every run: a pass over unchanged content records as acknowledged exactly those of the targets now configured
      that its record already listed or that acknowledged this upload. */
  lemma PassRecordsExactly(ws: seq<World>, acts: seq<Action>, n: nat) returns (m: nat)
    requires Run(ws, acts) && n < |acts| && acts[n] == SetCompleted
    ensures Rechecking(ws, acts, m, n) && ws[m].q.phase.path in ws[n + 1].q.jobs
    ensures var p, fp := ws[m].q.phase.path, ws[m].q.phase.fp;
      var was, now := ws[m].q.jobs[p].state, ws[n + 1].q.jobs[p].state;
      && now.fp == fp && now.targets == acts[m].current
      && forall k :: k in now.completed <==>
           k in acts[m].current && (k in was.completed || Ack(p, fp, k) in NewAcks(ws[m].q, acts[m]))
  {
    assert StepAt(ws, acts, n);
    RunKeeps(ws, acts, n);
    m := RecheckedBefore(ws, acts, n);
    RunKeeps(ws, acts, m);
    assert PassOk(ws[m]) && PassOk(ws[n]);
    var was := ws[m].q.phase;
    forall k ensures Ack(was.path, was.fp, k) in NewAcks(ws[m].q, acts[m]) <==> k in was.keys && was.keys[k] in was.ok {
    }
  }

  /** Answers come only from an upload, and there is one only when something is owed. */
  predicate AnswersEarned(q: Queue) {
    q.phase.Uploaded? && q.phase.ok != {} ==> Owed(q.phase.keys, q.phase.completed) != {}
  }

  lemma AnswersStep(w: World, a: Action)
    requires Enabled(w, a) && AnswersEarned(w.q)
    ensures AnswersEarned(Next(w, a).q)
  {
  }

  lemma {:induction false} AnswersRun(ws: seq<World>, acts: seq<Action>, n: nat)
    requires Run(ws, acts) && n <= |acts|
    ensures AnswersEarned(ws[n].q)
  {
    if n > 0 {
      AnswersRun(ws, acts, n - 1);
      assert StepAt(ws, acts, n - 1);
      AnswersStep(ws[n - 1], acts[n - 1]);
    }
  }

  /** Over every run a pass that owes nothing acknowledges nothing. */
  lemma AckNeedsUpload(ws: seq<World>, acts: seq<Action>, n: nat)
    requires Run(ws, acts) && n < |acts| && NewAcks(ws[n].q, acts[n]) != {}
    ensures Owed(ws[n].q.phase.keys, ws[n].q.phase.completed) != {}
  {
    AnswersRun(ws, acts, n);
    var x :| x in NewAcks(ws[n].q, acts[n]);
  }

  // ---------------------------------------------------------------- when a pass counts as complete

  /** The pass is complete exactly when its result could be saved and lists every one of at least one target. */
  lemma CompleteIff(w: World, saves: bool)
    requires Inv(w) && Enabled(w, SaveResult(saves))
    ensures var r := w.q.jobs[w.q.phase.path].state;
      && Next(w, SaveResult(saves)).q.phase.Done?
      && (Next(w, SaveResult(saves)).q.phase.complete <==> saves && r.targets != {} && r.completed == r.targets)
  {
    assert PassOk(w);
  }

  /** A complete pass has its result on disk. */
  predicate ResultSafe(q: Queue) {
    q.phase.Done? && q.phase.complete ==>
      && q.phase.path in q.jobs && q.phase.path in q.saved && q.saved[q.phase.path] == q.jobs[q.phase.path].state
  }

  lemma ResultSafeStep(w: World, a: Action)
    requires Enabled(w, a) && ResultSafe(w.q)
    ensures ResultSafe(Next(w, a).q)
  {
  }

  /** Over every run: from the moment a pass counts as complete until it ends, the record with all its targets
      acknowledged is the one on disk; so a path is let go, or tried again, only with its result saved. */
  lemma {:induction false} CompleteIsSaved(ws: seq<World>, acts: seq<Action>, n: nat)
    requires Run(ws, acts) && n <= |acts|
    ensures ResultSafe(ws[n].q)
  {
    if n > 0 {
      CompleteIsSaved(ws, acts, n - 1);
      assert StepAt(ws, acts, n - 1);
      ResultSafeStep(ws[n - 1], acts[n - 1]);
    }
  }

  // ---------------------------------------------------------------- content that changed during an upload

  /** Nothing is recorded for `p`, and no pass over it has planned anything yet. */
  predicate Forgotten(q: Queue, p: string) {
    && p in q.jobs && q.jobs[p].state == EMPTY
    && (q.phase != Idle && q.phase.path == p ==>
          q.phase.Picked? || q.phase.Started? || q.phase.Saved? || (q.phase.Done? && !q.phase.complete))
  }

  predicate Plans(q: Queue, a: Action, p: string) {
    a.AssignPlan? && q.phase.Saved? && q.phase.path == p
  }

  lemma ForgottenStep(w: World, a: Action, p: string)
    requires Enabled(w, a) && Forgotten(w.q, p) && a != Restart && !Plans(w.q, a, p)
    ensures Forgotten(Next(w, a).q, p)
  {
  }

  lemma ChangeForgets(w: World, a: Action)
    requires Enabled(w, a) && a.Recheck? && w.q.phase.Uploaded? && a.fp != w.q.phase.fp
    ensures Forgotten(Next(w, a).q, w.q.phase.path)
    ensures a.saves ==> w.q.phase.path in Next(w, a).q.saved && Next(w, a).q.saved[w.q.phase.path] == EMPTY
  {
  }

  lemma {:induction false} StaysForgotten(ws: seq<World>, acts: seq<Action>, m: nat, n: nat, p: string)
    requires Run(ws, acts) && m <= n <= |acts| && Forgotten(ws[m].q, p)
    requires forall i :: m <= i < n ==> acts[i] != Restart && !Plans(ws[i].q, acts[i], p)
    ensures Forgotten(ws[n].q, p)
  {
    if m < n {
      StaysForgotten(ws, acts, m, n - 1, p);
      assert StepAt(ws, acts, n - 1);
      ForgottenStep(ws[n - 1], acts[n - 1], p);
    }
  }

  /** Over every run: once a source turned out changed during its upload, the next plan for it owes every target, even
      if the content has changed back and whatever was acknowledged before. */
  lemma ChangedIsSentAgain(ws: seq<World>, acts: seq<Action>, m: nat, n: nat, p: string)
    requires Run(ws, acts) && m < n < |acts|
    requires acts[m].Recheck? && ws[m].q.phase.Uploaded? && ws[m].q.phase.path == p && acts[m].fp != ws[m].q.phase.fp
    requires acts[n].SavePlan? && acts[n].saves && ws[n].q.phase.Started? && ws[n].q.phase.path == p
    requires forall i :: m < i < n ==> acts[i] != Restart && !Plans(ws[i].q, acts[i], p)
    ensures ws[n + 1].q.phase.Saved? && ws[n + 1].q.phase.completed == {}
    ensures Owed(ws[n + 1].q.phase.keys, ws[n + 1].q.phase.completed) == acts[n].keys.Keys
  {
    assert StepAt(ws, acts, m) && StepAt(ws, acts, n);
    ChangeForgets(ws[m], acts[m]);
    StaysForgotten(ws, acts, m + 1, n, p);
  }
}
