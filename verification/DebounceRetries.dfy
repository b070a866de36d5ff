/**
 How often the folder watcher looks at an unstable file before it gives up, over any run.
 */
module DebounceRetries {
  import opened Debouncer

  // ---------------------------------------------------------------- one path in one flush

  /** What the second locked section of a flush does to one path: an unstable file waits again and has failed once more,
      unless it has failed too often; a stable one is handed on, and waits again if that failed; other paths stay. */
  ghost predicate SettledAs(w: Watcher, v: Watcher, ready: seq<string>, retry: seq<string>, now: real,
          failed: set<string>, p: string) {
    if p in retry then
      if Attempts(w, p) <= MAX_STABILITY_RETRIES then
        && p in v.pending && v.pending[p] == now
        && p in v.retries && v.retries[p] == Attempts(w, p)
      else SameWait(w, v, p) && p !in v.retries
    else if p in ready then
      && p !in v.retries && if p in failed then p in v.pending && v.pending[p] == now else SameWait(w, v, p)
    else
      SameWait(w, v, p) && (p in v.retries <==> p in w.retries) && (p in w.retries ==> v.retries[p] == w.retries[p])
  }

  predicate SameWait(w: Watcher, v: Watcher, p: string) {
    (p in v.pending <==> p in w.pending) && (p in w.pending ==> v.pending[p] == w.pending[p])
  }

  ghost predicate Distinct(ps: seq<string>) {
    forall i, j :: 0 <= i < j < |ps| ==> ps[i] != ps[j]
  }

  lemma {:induction false} RetryAllAs(w: Watcher, ps: seq<string>, now: real, p: string)
    requires Distinct(ps)
    ensures SettledAs(w, RetryAll(w, ps, now), [], ps, now, {}, p)
  {
    if ps != [] {
      var init, last := ps[..|ps| - 1], ps[|ps| - 1];
      assert ps == init + [last];
      RetryAllAs(w, init, now, p);
      RetryAllAs(w, init, now, last);
    }
  }

  lemma {:induction false} HandAllAs(w: Watcher, ps: seq<string>, now: real, failed: set<string>, p: string)
    requires Distinct(ps)
    ensures SettledAs(w, HandAll(w, ps, now, failed), ps, [], now, failed, p)
  {
    if ps != [] {
      var init, last := ps[..|ps| - 1], ps[|ps| - 1];
      assert ps == init + [last];
      HandAllAs(w, init, now, failed, p);
    }
  }

  lemma SettleIs(w: Watcher, ready: seq<string>, retry: seq<string>, now: real, failed: set<string>, p: string)
    requires Distinct(ready) && Distinct(retry) && (forall x :: x in ready ==> x !in retry)
    ensures w.stopped ==> Settled(w, ready, retry, now, failed) == w
    ensures !w.stopped ==> SettledAs(w, Settled(w, ready, retry, now, failed), ready, retry, now, failed, p)
  {
    RetryAllAs(w, retry, now, p);
    HandAllAs(RetryAll(w, retry, now), ready, now, failed, p);
  }

  // ---------------------------------------------------------------- over runs

  /** A flush found the file unstable. */
  predicate Unstable(s: World, a: Action, p: string) {
    a.Settle? && !s.w.stopped && a.id in s.flushes && s.flushes[a.id].stage.Looked? && p in s.flushes[a.id].stage.retry
  }

  predicate GivesUp(s: World, a: Action, p: string) {
    Unstable(s, a, p) && Attempts(s.w, p) > MAX_STABILITY_RETRIES
  }

  /** The count starts over: a new event, a handoff, or everything was captured. */
  predicate StartsOver(s: World, a: Action, p: string) {
    || (a.Event? && a.path == p && !s.w.stopped)
    || (a.Settle? && !s.w.stopped && a.id in s.flushes && s.flushes[a.id].stage.Looked? &&
        p in s.flushes[a.id].stage.ready)
    || a.Capture?
  }

  function CountUnstable(ss: seq<World>, acts: seq<Action>, m: nat, n: nat, p: string): nat
    requires |ss| == |acts| + 1 && m <= n <= |acts|
  {
    if m == n then 0
    else
      var last := if Unstable(ss[n - 1], acts[n - 1], p) then 1 else 0;
      CountUnstable(ss, acts, m, n - 1, p) + last
  }

  lemma RetriesStep(s: World, a: Action, p: string)
    requires Inv(s) && Enabled(s, a) && !StartsOver(s, a, p) && !GivesUp(s, a, p)
    requires p in s.w.retries
    ensures p in Next(s, a).w.retries
    ensures Next(s, a).w.retries[p] == s.w.retries[p] + if Unstable(s, a, p) then 1 else 0
  {
    if a.Settle? {
      var f := s.flushes[a.id];
      SettleIs(s.w, f.stage.ready, f.stage.retry, a.now, a.failed, p);
    }
  }

  /** The last event for `p` was action `m`, and since then it was neither handed on nor given up. */
  ghost predicate Watched(ss: seq<World>, acts: seq<Action>, m: nat, n: nat, p: string)
    requires |ss| == |acts| + 1
  {
    && m < n <= |acts| && acts[m].Event? && acts[m].path == p && !ss[m].w.stopped
    && forall i :: m < i < n ==> !StartsOver(ss[i], acts[i], p) && !GivesUp(ss[i], acts[i], p)
  }

  lemma {:induction false} RetriesAre(ss: seq<World>, acts: seq<Action>, m: nat, n: nat, p: string)
    requires Run(ss, acts) && Watched(ss, acts, m, n, p)
    ensures p in ss[n].w.retries && ss[n].w.retries[p] == CountUnstable(ss, acts, m + 1, n, p)
  {
    assert StepAt(ss, acts, n - 1);
    if m < n - 1 {
      RetriesAre(ss, acts, m, n - 1, p);
      RunKeeps(ss, acts, n - 1);
      RetriesStep(ss[n - 1], acts[n - 1], p);
    }
  }

  /** Over every run: a file that is found unstable waits for another look exactly until it has been found so sixty
      times since its last event; the next time it is given up. */
  lemma GivesUpIff(ss: seq<World>, acts: seq<Action>, m: nat, n: nat, p: string)
    requires Run(ss, acts) && Watched(ss, acts, m, n, p) && n < |acts| && Unstable(ss[n], acts[n], p)
    ensures var k, v := CountUnstable(ss, acts, m + 1, n, p), ss[n + 1].w;
      && k <= MAX_STABILITY_RETRIES
      && (k < MAX_STABILITY_RETRIES ==> p in v.pending && v.pending[p] == acts[n].now)
      && (k == MAX_STABILITY_RETRIES ==> SameWait(ss[n].w, v, p) && p !in v.retries)
  {
    RetriesAre(ss, acts, m, n, p);
    RunKeeps(ss, acts, n);
    assert StepAt(ss, acts, n);
    var f := ss[n].flushes[acts[n].id];
    SettleIs(ss[n].w, f.stage.ready, f.stage.retry, acts[n].now, acts[n].failed, p);
    CountBounded(ss, acts, m, n, p);
  }

  lemma {:induction false} CountBounded(ss: seq<World>, acts: seq<Action>, m: nat, n: nat, p: string)
    requires Run(ss, acts) && Watched(ss, acts, m, n, p)
    ensures CountUnstable(ss, acts, m + 1, n, p) <= MAX_STABILITY_RETRIES
  {
    if m < n - 1 {
      CountBounded(ss, acts, m, n - 1, p);
      RetriesAre(ss, acts, m, n - 1, p);
    }
  }

  // ---------------------------------------------------------------- one flush takes a path once

  /** The step puts `p` among the pending paths, or may do so. */
  predicate Returns(s: World, a: Action, p: string) {
    || (a.Event? && a.path == p)
    || (a.Settle? && a.id in s.flushes && s.flushes[a.id].stage.Looked? &&
        (p in s.flushes[a.id].stage.ready || p in s.flushes[a.id].stage.retry))
  }

  lemma GoneStep(s: World, a: Action, p: string)
    requires Inv(s) && Enabled(s, a) && p !in s.w.pending && !Returns(s, a, p)
    ensures p !in Next(s, a).w.pending
  {
    if a.Settle? {
      var f := s.flushes[a.id];
      SettleIs(s.w, f.stage.ready, f.stage.retry, a.now, a.failed, p);
    }
  }

  /** Over every run: the paths a flush takes are those quiet for long enough, and none of them is pending again, for
      another flush to take, before a new event for it or before the flush has looked at it. */
  lemma {:induction false} TakenOnce(ss: seq<World>, acts: seq<Action>, m: nat, n: nat, p: string)
    requires Run(ss, acts) && m < n <= |acts| && acts[m].Begin?
    requires forall i :: m < i < n ==> !Returns(ss[i], acts[i], p)
    ensures acts[m].id in ss[m + 1].flushes
    ensures var taken := ss[m + 1].flushes[acts[m].id].cands;
      && (p in taken <==> p in ss[m].w.pending && acts[m].now - ss[m].w.pending[p] >= acts[m].debounce)
      && (p in taken ==> p !in ss[n].w.pending)
  {
    assert StepAt(ss, acts, m);
    if m < n - 1 {
      TakenOnce(ss, acts, m, n - 1, p);
      RunKeeps(ss, acts, n - 1);
      assert StepAt(ss, acts, n - 1);
      if p in ss[m + 1].flushes[acts[m].id].cands { GoneStep(ss[n - 1], acts[n - 1], p); }
    }
  }

  /** It is marked as being checked until a flush that holds it ends, or everything is captured. */
  lemma {:induction false} TakenIsMarked(ss: seq<World>, acts: seq<Action>, m: nat, n: nat, p: string)
    requires Run(ss, acts) && m < n <= |acts| && acts[m].Begin?
    requires acts[m].id in ss[m + 1].flushes && p in ss[m + 1].flushes[acts[m].id].cands
    requires forall i :: m < i < n ==>
      !acts[i].Capture? && !(acts[i].End? && acts[i].id in ss[i].flushes && p in ss[i].flushes[acts[i].id].cands)
    ensures p in ss[n].w.checking
  {
    assert StepAt(ss, acts, n - 1);
    if m < n - 1 {
      TakenIsMarked(ss, acts, m, n - 1, p);
      RunKeeps(ss, acts, n - 1);
      MarkStep(ss[n - 1], acts[n - 1], p);
    }
  }

  lemma MarkStep(s: World, a: Action, p: string)
    requires Inv(s) && Enabled(s, a) && p in s.w.checking && !a.Capture?
    requires !(a.End? && a.id in s.flushes && p in s.flushes[a.id].cands)
    ensures p in Next(s, a).w.checking
  {
    if a.Settle? && !s.w.stopped { SettleHolds(s, a.id, a.now, a.failed, p); }
  }
}
