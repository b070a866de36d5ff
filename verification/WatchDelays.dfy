/**
 The delays between the Watch queue's passes over one path, in runs: they never fall from one failed
 pass to the next, and exactly when a complete pass sets a shorter one.
 */
module WatchDelays {
  import opened WatchQueue
  import opened WatchProofs

  lemma {:induction false} DoubledGrows(base: real, m: nat, n: nat)
    requires m <= n && base >= 0.0
    ensures 0.0 <= base <= Doubled(base, m) <= Doubled(base, n)
  {
    if m < n {
      DoubledGrows(base, m, n - 1);
      assert Doubled(base, n) == 2.0 * Doubled(base, n - 1);
    } else if 0 < n {
      DoubledGrows(base, n - 1, n - 1);
      assert Doubled(base, n) == 2.0 * Doubled(base, n - 1);
    }
  }

  function Least(x: real, y: real): real {
    if x < y then x else y
  }

  /** The delay grows with the failures, and stays between the base and the cap. */
  lemma BackoffBounded(m: nat, n: nat, base: real, cap: real)
    requires 0 < m <= n && 0.0 <= base
    ensures Least(base, cap) <= Backoff(m, base, cap) <= Backoff(n, base, cap) <= cap
  {
    DoubledGrows(base, m - 1, n - 1);
  }

  /** It starts at the base and doubles with every failure, up to the cap. */
  lemma BackoffDoubles(n: nat, base: real, cap: real)
    requires n > 0 && 0.0 <= base && 0.0 <= cap
    ensures Backoff(1, base, cap) == Least(base, cap)
    ensures Backoff(n + 1, base, cap) == Least(2.0 * Backoff(n, base, cap), cap)
  {
    assert Power(0) == 1.0;
    assert Doubled(base, n) == 2.0 * Doubled(base, n - 1) by {
      assert Power(n) == 2.0 * Power(n - 1);
    }
    DoubledGrows(base, 0, n - 1);
  }

  /** Action `n` ends a pass over `p`. */
  predicate Ends(w: World, a: Action, p: string) {
    a.Conclude? && w.q.phase.Done? && w.q.phase.path == p
  }

  /** From just after action `m` until just after action `n`, `p` stays queued. */
  ghost predicate StaysQueued(ws: seq<World>, acts: seq<Action>, m: nat, n: nat, p: string)
    requires |ws| == |acts| + 1 && m <= n < |acts|
  {
    && (forall i :: m <= i <= n + 1 ==> p in ws[i].q.jobs)
    && (forall i :: m <= i <= n ==> acts[i] != Restart)
  }

  /** How long after action `n` the next pass over `p` is due. */
  function Delay(ws: seq<World>, acts: seq<Action>, n: nat, p: string): real
    requires |ws| == |acts| + 1 && n < |acts| && acts[n].Conclude? && p in ws[n + 1].q.jobs
  {
    ws[n + 1].q.jobs[p].due - acts[n].now
  }

  predicate FailuresOk(w: World) {
    forall p :: p in w.q.jobs ==> w.q.jobs[p].failures <= MAX_FAILURES
  }

  lemma FailuresEvent(w: World, a: Action, p: string)
    requires Enabled(w, a) && FailuresOk(w) && (a.Enqueue? || a.Retain?)
    ensures FailuresOk(Next(w, a)) && Next(w, a).base == w.base && Next(w, a).cap == w.cap
    ensures a != Restart && p in w.q.jobs && p in Next(w, a).q.jobs ==>
        w.q.jobs[p].failures <= Next(w, a).q.jobs[p].failures
  {
  }

  lemma FailuresEnd(w: World, a: Action, p: string)
    requires Enabled(w, a) && FailuresOk(w) && (a.Conclude? || a.Restart?)
    ensures FailuresOk(Next(w, a)) && Next(w, a).base == w.base && Next(w, a).cap == w.cap
    ensures a != Restart && p in w.q.jobs && p in Next(w, a).q.jobs ==>
        w.q.jobs[p].failures <= Next(w, a).q.jobs[p].failures
  {
  }

  lemma FailuresTurn(w: World, a: Action, p: string)
    requires Enabled(w, a) && FailuresOk(w) && !a.Enqueue? && !a.Retain? && !a.Conclude? && !a.Restart?
    ensures FailuresOk(Next(w, a)) && Next(w, a).base == w.base && Next(w, a).cap == w.cap
    ensures a != Restart && p in w.q.jobs && p in Next(w, a).q.jobs ==>
        w.q.jobs[p].failures <= Next(w, a).q.jobs[p].failures
  {
  }

  lemma FailuresStep(w: World, a: Action, p: string)
    requires Enabled(w, a) && FailuresOk(w)
    ensures FailuresOk(Next(w, a)) && Next(w, a).base == w.base && Next(w, a).cap == w.cap
    ensures a != Restart && p in w.q.jobs && p in Next(w, a).q.jobs ==>
        w.q.jobs[p].failures <= Next(w, a).q.jobs[p].failures
  {
    if a.Enqueue? || a.Retain? {
      FailuresEvent(w, a, p);
    } else if a.Conclude? || a.Restart? {
      FailuresEnd(w, a, p);
    } else {
      FailuresTurn(w, a, p);
    }
  }

  lemma {:induction false} FailuresRun(ws: seq<World>, acts: seq<Action>, n: nat)
    requires Run(ws, acts) && n <= |acts|
    ensures FailuresOk(ws[n]) && ws[n].base == ws[0].base && ws[n].cap == ws[0].cap
  {
    if n > 0 {
      FailuresRun(ws, acts, n - 1);
      assert StepAt(ws, acts, n - 1);
      FailuresStep(ws[n - 1], acts[n - 1], "");
    }
  }

  lemma {:induction false} FailuresRise(ws: seq<World>, acts: seq<Action>, m: nat, n: nat, p: string)
    requires Run(ws, acts) && m <= n <= |acts|
    requires (forall i :: m <= i <= n ==> p in ws[i].q.jobs) && (forall i :: m <= i < n ==> acts[i] != Restart)
    ensures ws[m].q.jobs[p].failures <= ws[n].q.jobs[p].failures
  {
    if m < n {
      FailuresRise(ws, acts, m, n - 1, p);
      FailuresRun(ws, acts, n - 1);
      assert StepAt(ws, acts, n - 1);
      FailuresStep(ws[n - 1], acts[n - 1], p);
    }
  }

  /** What the end of a pass that leaves `p` queued sets: the backoff after one more failure, the base delay when the
      removal could not be saved, or at once when an event came in between. */
  lemma DelaySet(ws: seq<World>, acts: seq<Action>, n: nat, p: string)
    requires Run(ws, acts) && n < |acts| && Ends(ws[n], acts[n], p) && p in ws[n + 1].q.jobs
    ensures p in ws[n].q.jobs
    ensures !ws[n].q.phase.complete ==>
              (ws[n + 1].q.jobs[p].failures > 0
               && Delay(ws, acts, n, p) == Backoff(ws[n + 1].q.jobs[p].failures, ws[0].base, ws[0].cap))
    ensures ws[n].q.phase.complete && ws[n].clean ==> !acts[n].saves && Delay(ws, acts, n, p) == ws[0].base
    ensures ws[n].q.phase.complete && !ws[n].clean ==> ws[n + 1].q.jobs[p].due == 0.0
  {
    RunKeeps(ws, acts, n);
    FailuresRun(ws, acts, n);
    assert StepAt(ws, acts, n);
  }

  /** Over every run: as long as a path stays queued, the delays its incomplete passes set never fall and stay between
      base and cap, whatever events and complete passes lie between them. */
  lemma DelaysNeverFall(ws: seq<World>, acts: seq<Action>, m: nat, n: nat, p: string)
    requires Run(ws, acts) && ws[0].base >= 0.0 && m <= n < |acts| && StaysQueued(ws, acts, m, n, p)
    requires Ends(ws[m], acts[m], p) && !ws[m].q.phase.complete
    requires Ends(ws[n], acts[n], p) && !ws[n].q.phase.complete
    ensures Least(ws[0].base, ws[0].cap) <= Delay(ws, acts, m, p) <= Delay(ws, acts, n, p) <= ws[0].cap
  {
    DelaySet(ws, acts, m, p);
    DelaySet(ws, acts, n, p);
    FailuresRise(ws, acts, m + 1, n + 1, p);
    BackoffBounded(ws[m + 1].q.jobs[p].failures, ws[n + 1].q.jobs[p].failures, ws[0].base, ws[0].cap);
  }

  /** After an incomplete pass a later pass sets a shorter delay exactly when it was complete and either nothing
      interfered but its removal could not be saved, and the base is shorter, or an event came in between. */
  lemma FallsAfterFailureIff(ws: seq<World>, acts: seq<Action>, m: nat, n: nat, p: string)
    requires Run(ws, acts) && ws[0].base >= 0.0 && m <= n < |acts| && StaysQueued(ws, acts, m, n, p)
    requires Ends(ws[m], acts[m], p) && !ws[m].q.phase.complete && Ends(ws[n], acts[n], p)
    ensures Delay(ws, acts, n, p) < Delay(ws, acts, m, p) <==>
            && ws[n].q.phase.complete
            && (if ws[n].clean then ws[0].base else -acts[n].now) < Delay(ws, acts, m, p)
  {
    DelaySet(ws, acts, n, p);
    if !ws[n].q.phase.complete { DelaysNeverFall(ws, acts, m, n, p); }
  }

  /** The exact exceptions, whatever pass set the earlier delay: while a path stays queued, a later pass sets a shorter
      delay exactly when it was complete and either nothing interfered but its removal could not be saved, and the base
      is shorter, or an event came in between, which makes the path due at time zero. */
  lemma DelayFallsIff(ws: seq<World>, acts: seq<Action>, m: nat, n: nat, p: string)
    requires Run(ws, acts) && 0.0 <= ws[0].base <= ws[0].cap && m <= n < |acts| && StaysQueued(ws, acts, m, n, p)
    requires Ends(ws[m], acts[m], p) && acts[m].now >= 0.0 && Ends(ws[n], acts[n], p)
    ensures Delay(ws, acts, n, p) < Delay(ws, acts, m, p) <==>
            && ws[n].q.phase.complete
            && (if ws[n].clean then ws[0].base else -acts[n].now) < Delay(ws, acts, m, p)
  {
    DelaySet(ws, acts, m, p);
    DelaySet(ws, acts, n, p);
    if !ws[n].q.phase.complete {
      if ws[m].q.phase.complete {
        BackoffBounded(1, ws[n + 1].q.jobs[p].failures, ws[0].base, ws[0].cap);
      } else {
        DelaysNeverFall(ws, acts, m, n, p);
      }
    }
  }

  /** How many incomplete passes over `p` end from action `m` on and before action `n`. */
  function Incomplete(ws: seq<World>, acts: seq<Action>, m: nat, n: nat, p: string): nat
    requires |ws| == |acts| + 1 && m <= n <= |acts|
  {
    if m == n then 0
    else
      var last := if Ends(ws[n - 1], acts[n - 1], p) && !ws[n - 1].q.phase.complete then 1 else 0;
      Incomplete(ws, acts, m, n - 1, p) + last
  }

  /** At `m` the path has just been queued, by an event or by a start. */
  predicate JustQueued(ws: seq<World>, acts: seq<Action>, m: nat, p: string)
    requires |ws| == |acts| + 1 && m <= |acts|
  {
    p in ws[m].q.jobs && (m == 0 || acts[m - 1] == Restart || p !in ws[m - 1].q.jobs)
  }

  lemma CountStep(w: World, a: Action, p: string)
    requires Enabled(w, a) && a != Restart && p in w.q.jobs && p in Next(w, a).q.jobs
    ensures Next(w, a).q.jobs[p].failures ==
      if !(Ends(w, a, p) && !w.q.phase.complete) then w.q.jobs[p].failures
      else if w.q.jobs[p].failures + 1 < MAX_FAILURES then w.q.jobs[p].failures + 1 else MAX_FAILURES
  {
  }

  lemma FreshStart(ws: seq<World>, acts: seq<Action>, m: nat, p: string)
    requires Run(ws, acts) && m <= |acts| && JustQueued(ws, acts, m, p)
    ensures ws[m].q.jobs[p].failures == 0
  {
    if m > 0 { assert StepAt(ws, acts, m - 1); }
  }

  lemma {:induction false} FailuresCounted(ws: seq<World>, acts: seq<Action>, m: nat, n: nat, p: string)
    requires Run(ws, acts) && m <= n <= |acts| && JustQueued(ws, acts, m, p)
    requires (forall i :: m <= i <= n ==> p in ws[i].q.jobs) && (forall i :: m <= i < n ==> acts[i] != Restart)
    ensures var k := Incomplete(ws, acts, m, n, p);
      ws[n].q.jobs[p].failures == if k < MAX_FAILURES then k else MAX_FAILURES
  {
    if m == n {
      FreshStart(ws, acts, m, p);
    } else {
      FailuresCounted(ws, acts, m, n - 1, p);
      assert StepAt(ws, acts, n - 1);
      CountStep(ws[n - 1], acts[n - 1], p);
    }
  }

  /** Over every run: the `k`-th incomplete pass since a path was queued sets the `k`-th delay of the doubling series,
      and the thirtieth's from then on. */
  lemma DelayIs(ws: seq<World>, acts: seq<Action>, m: nat, n: nat, p: string)
    requires Run(ws, acts) && m <= n < |acts| && JustQueued(ws, acts, m, p) && StaysQueued(ws, acts, m, n, p)
    requires Ends(ws[n], acts[n], p) && !ws[n].q.phase.complete
    ensures var k := Incomplete(ws, acts, m, n + 1, p);
      k > 0 && Delay(ws, acts, n, p) == Backoff(if k < MAX_FAILURES then k else MAX_FAILURES, ws[0].base, ws[0].cap)
  {
    FailuresCounted(ws, acts, m, n + 1, p);
    DelaySet(ws, acts, n, p);
  }

  lemma {:induction false} FailuresStayZero(ws: seq<World>, acts: seq<Action>, k: nat, n: nat, p: string)
    requires Run(ws, acts) && k < n <= |acts| && acts[k] == Restart && forall i :: k < i <= n ==> p in ws[i].q.jobs
    requires forall i :: k < i < n ==> Ends(ws[i], acts[i], p) ==> ws[i].q.phase.complete
    ensures ws[n].q.jobs[p].failures == 0
  {
    assert StepAt(ws, acts, n - 1);
    if k < n - 1 { FailuresStayZero(ws, acts, k, n - 1, p); }
  }

  /** A restart resets the failures, and so the delay: the first incomplete pass after it sets the base delay, at most
      the cap, however long the delays were before. */
  lemma RestartResetsDelay(ws: seq<World>, acts: seq<Action>, k: nat, n: nat, p: string)
    requires Run(ws, acts) && k < n < |acts| && acts[k] == Restart && forall i :: k < i <= n + 1 ==> p in ws[i].q.jobs
    requires forall i :: k < i < n ==> Ends(ws[i], acts[i], p) ==> ws[i].q.phase.complete
    requires Ends(ws[n], acts[n], p) && !ws[n].q.phase.complete
    ensures Delay(ws, acts, n, p) == Least(ws[0].base, ws[0].cap)
  {
    FailuresStayZero(ws, acts, k, n, p);
    FailuresRun(ws, acts, n);
    assert StepAt(ws, acts, n);
    assert Doubled(ws[0].base, 0) == ws[0].base;
  }

  // ---------------------------------------------------------------- a run in which the delay falls

  const ONE := map["a" := "host-a"]
  const SENT := Record(FP, {"a"}, {"a"})
  const SEEN := Record(FP, {"a"}, {})

  /** A queue with one path whose only target has acknowledged it already. */
  function Single(due: real, failures: nat, phase: Phase, clean: bool, checked: Record): World {
    World(Queue(map["p" := Job(SENT, due, failures, 0, false)], map[], map["p" := SENT], false, phase),
          {Ack("p", FP, "a")}, clean, checked, {}, 2.0, 300.0)
  }

  /** A run over that path in which it stays queued. */
  ghost predicate Kept(ws: seq<World>, acts: seq<Action>) {
    && Run(ws, acts) && ws[0].base == 2.0
    && (forall i :: 0 <= i < |ws| ==> "p" in ws[i].q.jobs)
    && (forall i :: 0 <= i < |acts| ==> acts[i] != Restart)
  }

  lemma Onward(ws: seq<World>, acts: seq<Action>, a: Action, next: World) returns (vs: seq<World>, more: seq<Action>)
    requires Kept(ws, acts) && Enabled(ws[|acts|], a) && next == Next(ws[|acts|], a) && "p" in next.q.jobs &&
      a != Restart
    ensures Kept(vs, more) && more == acts + [a] && vs == ws + [next]
  {
    vs, more := Extend(ws, acts, a, next);
  }

  /** One pass that fails because the file is away. */
  lemma FailedSteps(due: real, failures: nat, clean: bool, now: real)
    requires due <= now && failures < 29
    ensures Enabled(Single(due, failures, Idle, clean, EMPTY), Pick("p", now))
    ensures Next(Single(due, failures, Idle, clean, EMPTY), Pick("p", now)) ==
        Single(due, failures, Picked("p"), clean, EMPTY)
    ensures Next(Single(due, failures, Picked("p"), clean, EMPTY), Begin) ==
        Single(due, failures, Started("p", 0), true, EMPTY)
    ensures Next(Single(due, failures, Started("p", 0), true, EMPTY), GiveUp) ==
        Single(due, failures, Done("p", 0, false), true, EMPTY)
  {
  }

  lemma FailedEnd(due: real, failures: nat, now: real)
    requires failures < 29
    ensures Next(Single(due, failures, Done("p", 0, false), true, EMPTY), Conclude(false, now)) ==
            Single(now + Backoff(failures + 1, 2.0, 300.0), failures + 1, Idle, true, EMPTY)
  {
    SingleJob(Job(SENT, due, failures, 0, false),
        Job(SENT, now + Backoff(failures + 1, 2.0, 300.0), failures + 1, 0, false));
  }

  lemma FailedPass(ws: seq<World>, acts: seq<Action>, due: real, failures: nat, clean: bool, now: real)
    returns (vs: seq<World>, more: seq<Action>)
    requires Kept(ws, acts) && ws[|acts|] == Single(due, failures, Idle, clean, EMPTY) && due <= now && failures < 29
    ensures Kept(vs, more) && |more| == |acts| + 4 && more[|acts| + 3] == Conclude(false, now)
    ensures vs[|acts| + 3] == Single(due, failures, Done("p", 0, false), true, EMPTY)
    ensures vs[|acts| + 4] == Single(now + Backoff(failures + 1, 2.0, 300.0), failures + 1, Idle, true, EMPTY)
  {
    FailedSteps(due, failures, clean, now);
    FailedEnd(due, failures, now);
    vs, more := Onward(ws, acts, Pick("p", now), Single(due, failures, Picked("p"), clean, EMPTY));
    vs, more := Onward(vs, more, Begin, Single(due, failures, Started("p", 0), true, EMPTY));
    vs, more := Onward(vs, more, GiveUp, Single(due, failures, Done("p", 0, false), true, EMPTY));
    vs, more := Onward(vs, more, Conclude(false, now),
        Single(now + Backoff(failures + 1, 2.0, 300.0), failures + 1, Idle, true, EMPTY));
  }

  /** One pass that finds everything acknowledged, and whose removal cannot be saved. */
  lemma CompletePlan(due: real, failures: nat)
    ensures Next(Single(due, failures, Started("p", 0), true, EMPTY), SavePlan(FP, ONE, true)) ==
            Single(due, failures, Saved("p", 0, FP, ONE, {"a"}), true, EMPTY)
    ensures Next(Single(due, failures, Saved("p", 0, FP, ONE, {"a"}), true, EMPTY), AssignPlan) ==
            Single(due, failures, Planned("p", 0, FP, ONE, {"a"}), true, EMPTY)
    ensures Next(Single(due, failures, Planned("p", 0, FP, ONE, {"a"}), true, EMPTY), Attempt({})) ==
            Single(due, failures, Uploaded("p", 0, FP, ONE, {"a"}, {}), true, EMPTY)
  {
    assert ONE.Keys == {"a"};
    assert Carried(SENT, FP, ONE) == {"a"};
    SingleRecord(SENT, SENT);
    SingleJob(Job(SENT, due, failures, 0, false), Job(SENT, due, failures, 0, false));
  }

  lemma CompleteRecheck(due: real, failures: nat)
    ensures Next(Single(due, failures, Uploaded("p", 0, FP, ONE, {"a"}, {}), true, EMPTY), Recheck(FP, {"a"}, true)) ==
            Single(due, failures, HalfWritten("p", 0, FP, {"a"}, {"a"}), true, SEEN)
  {
    assert Acknowledged(ONE, {"a"}, {}, {"a"}) == {"a"};
    SingleJob(Job(SENT, due, failures, 0, false), Job(SENT, due, failures, 0, false));
  }

  lemma CompleteResult(due: real, failures: nat)
    ensures Next(Single(due, failures, HalfWritten("p", 0, FP, {"a"}, {"a"}), true, SEEN), SetCompleted) ==
            Single(due, failures, Written("p", 0, FP, {"a"}, {"a"}), true, SEEN)
    ensures Next(Single(due, failures, Written("p", 0, FP, {"a"}, {"a"}), true, SEEN), SaveResult(true)) ==
            Single(due, failures, Done("p", 0, true), true, SEEN)
  {
    SingleRecord(SENT, SENT);
    SingleJob(Job(SENT, due, failures, 0, false), Job(SENT, due, failures, 0, false));
  }

  lemma CompleteEnd(due: real, failures: nat, now: real)
    ensures Next(Single(due, failures, Done("p", 0, true), true, SEEN), Conclude(false, now)) ==
            Single(now + 2.0, failures, Idle, true, SEEN)
  {
    SingleJob(Job(SENT, due, failures, 0, false), Job(SENT, now + 2.0, failures, 0, false));
  }

  lemma PlannedPass(ws: seq<World>, acts: seq<Action>, due: real, failures: nat, now: real)
    returns (vs: seq<World>, more: seq<Action>)
    requires Kept(ws, acts) && ws[|acts|] == Single(due, failures, Idle, true, EMPTY) && due <= now && failures < 29
    ensures Kept(vs, more) && ws <= vs && acts <= more
    ensures vs[|more|] == Single(due, failures, Uploaded("p", 0, FP, ONE, {"a"}, {}), true, EMPTY)
  {
    FailedSteps(due, failures, true, now);
    CompletePlan(due, failures);
    vs, more := Onward(ws, acts, Pick("p", now), Single(due, failures, Picked("p"), true, EMPTY));
    vs, more := Onward(vs, more, Begin, Single(due, failures, Started("p", 0), true, EMPTY));
    vs, more := Onward(vs, more, SavePlan(FP, ONE, true),
        Single(due, failures, Saved("p", 0, FP, ONE, {"a"}), true, EMPTY));
    vs, more := Onward(vs, more, AssignPlan, Single(due, failures, Planned("p", 0, FP, ONE, {"a"}), true, EMPTY));
    vs, more := Onward(vs, more, Attempt({}), Single(due, failures, Uploaded("p", 0, FP, ONE, {"a"}, {}), true, EMPTY));
  }

  lemma CompletePass(ws: seq<World>, acts: seq<Action>, due: real, failures: nat, now: real)
    returns (vs: seq<World>, more: seq<Action>)
    requires Kept(ws, acts) && ws[|acts|] == Single(due, failures, Uploaded("p", 0, FP, ONE, {"a"}, {}), true, EMPTY)
    ensures Kept(vs, more) && |more| == |acts| + 4 && ws <= vs && acts <= more &&
      more[|acts| + 3] == Conclude(false, now)
    ensures vs[|acts| + 3] == Single(due, failures, Done("p", 0, true), true, SEEN)
    ensures vs[|acts| + 4] == Single(now + 2.0, failures, Idle, true, SEEN)
  {
    CompleteRecheck(due, failures);
    CompleteResult(due, failures);
    CompleteEnd(due, failures, now);
    vs, more := Onward(ws, acts, Recheck(FP, {"a"}, true),
        Single(due, failures, HalfWritten("p", 0, FP, {"a"}, {"a"}), true, SEEN));
    vs, more := Onward(vs, more, SetCompleted, Single(due, failures, Written("p", 0, FP, {"a"}, {"a"}), true, SEEN));
    vs, more := Onward(vs, more, SaveResult(true), Single(due, failures, Done("p", 0, true), true, SEEN));
    vs, more := Onward(vs, more, Conclude(false, now), Single(now + 2.0, failures, Idle, true, SEEN));
  }

  lemma SingleStarts()
    ensures Kept([Single(0.0, 0, Idle, true, EMPTY)], [])
  {
    assert Load(map["p" := SENT]).jobs == map["p" := Job(SENT, 0.0, 0, 0, false)];
  }

  lemma BackoffTwice()
    ensures Backoff(1, 2.0, 300.0) == 2.0 && Backoff(2, 2.0, 300.0) == 4.0
  {
    assert Power(1) == 2.0 * Power(0);
  }

  /** The delay does fall: two passes fail, the third is complete and its removal cannot be saved. */
  lemma DelayCanFall() returns (ws: seq<World>, acts: seq<Action>, m: nat, n: nat)
    ensures Run(ws, acts) && ws[0].base == 2.0 && m < n < |acts| && StaysQueued(ws, acts, m, n, "p")
    ensures Ends(ws[m], acts[m], "p") && !ws[m].q.phase.complete && Ends(ws[n], acts[n], "p")
    ensures Delay(ws, acts, n, "p") == 2.0 && Delay(ws, acts, m, "p") == 4.0
  {
    SingleStarts();
    BackoffTwice();
    ws, acts := FailedPass([Single(0.0, 0, Idle, true, EMPTY)], [], 0.0, 0, true, 0.0);
    ws, acts := FailedPass(ws, acts, 2.0, 1, true, 2.0);
    m := |acts| - 1;
    ws, acts := PlannedPass(ws, acts, 6.0, 2, 6.0);
    ws, acts := CompletePass(ws, acts, 6.0, 2, 6.0);
    n := |acts| - 1;
  }
}
