/**
 The folder watcher in front of the Watch queue: file events are held back until the file is
 stable, then handed on.  Timer threads flush, observer threads schedule, and `stop` may fall
 anywhere between their locked sections.
 */
module Debouncer {
  const MAX_STABILITY_RETRIES := 60

  datatype Watcher = Watcher(pending: map<string, real>, checking: set<string>, retries: map<string, nat>,
      stopped: bool)

  function Attempts(w: Watcher, p: string): nat {
    (if p in w.retries then w.retries[p] else 0) + 1
  }

  /** `_schedule_debounced`. */
  function Scheduled(w: Watcher, p: string, now: real): Watcher {
    if w.stopped then w else w.(pending := w.pending[p := now], retries := w.retries[p := 0])
  }

  /** The paths that have been quiet long enough. */
  function Candidates(w: Watcher, now: real, debounce: real): (s: set<string>)
    ensures forall p :: p in s <==> p in w.pending && now - w.pending[p] >= debounce
  {
    set p | p in w.pending && now - w.pending[p] >= debounce
  }

  /** First locked section of a flush. */
  function Taken(w: Watcher, cands: set<string>): Watcher {
    w.(pending := w.pending - cands, checking := w.checking + cands)
  }

  /** An unstable file goes round again until it has failed too often. */
  function RetryOne(w: Watcher, p: string, now: real): Watcher {
    if Attempts(w, p) <= MAX_STABILITY_RETRIES then
      w.(pending := w.pending[p := now], retries := w.retries[p := Attempts(w, p)])
    else w.(retries := w.retries - {p})
  }

  /** A stable file is handed on; a failed handoff keeps the event. */
  function HandOne(w: Watcher, p: string, now: real, fails: bool): Watcher {
    w.(retries := w.retries - {p}, pending := if fails then w.pending[p := now] else w.pending)
  }

  function RetryAll(w: Watcher, ps: seq<string>, now: real): Watcher {
    if ps == [] then w else RetryOne(RetryAll(w, ps[..|ps| - 1], now), ps[|ps| - 1], now)
  }

  function HandAll(w: Watcher, ps: seq<string>, now: real, failed: set<string>): Watcher {
    if ps == [] then w
    else HandOne(HandAll(w, ps[..|ps| - 1], now, failed), ps[|ps| - 1], now, ps[|ps| - 1] in failed)
  }

  /** Second locked section of a flush: nothing once a stop was requested. */
  function Settled(w: Watcher, ready: seq<string>, retry: seq<string>, now: real, failed: set<string>): Watcher {
    if w.stopped then w else HandAll(RetryAll(w, retry, now), ready, now, failed)
  }

  /** Last locked section: a stop request leaves `checking` to `stop`. */
  function Ended(w: Watcher, cands: set<string>): Watcher {
    if w.stopped then w else w.(checking := w.checking - cands)
  }

  /** The locked section of `stop`. */
  function Emptied(w: Watcher): Watcher {
    Watcher(map[], {}, map[], w.stopped)
  }

  class CalibreWatcher {
    var pending: map<string, real>
    var checking: set<string>
    var retries: map<string, nat>
    var stopped: bool
    const debounce: real

    function Value(): Watcher
      reads this
    {
      Watcher(pending, checking, retries, stopped)
    }

    constructor (seconds: real)
      ensures Value() == Watcher(map[], {}, map[], false) && debounce == seconds
    {
      pending, checking, retries, stopped, debounce := map[], {}, map[], false, seconds;
    }

    method ScheduleDebounced(p: string, now: real)
      modifies this
      ensures Value() == Scheduled(old(Value()), p, now)
    {
      if stopped { return; }
      pending := pending[p := now];
      retries := retries[p := 0];
    }

    method BeginFlush(now: real) returns (cands: set<string>)
      modifies this
      ensures old(stopped) ==> cands == {} && Value() == old(Value())
      ensures !old(stopped) ==>
          cands == Candidates(old(Value()), now, debounce) && Value() == Taken(old(Value()), cands)
    {
      cands := {};
      if stopped { return; }
      cands := Candidates(Value(), now, debounce);
      pending := pending - cands;
      checking := checking + cands;
    }

    method SettleFlush(ready: seq<string>, retry: seq<string>, now: real, failed: set<string>)
      modifies this
      ensures Value() == Settled(old(Value()), ready, retry, now, failed)
    {
      if stopped { return; }
      ghost var w := Value();
      for i := 0 to |retry|
        invariant Value() == RetryAll(w, retry[..i], now)
      {
        assert retry[..i + 1][..i] == retry[..i];
        var p := retry[i];
        var attempts := (if p in retries then retries[p] else 0) + 1;
        if attempts <= MAX_STABILITY_RETRIES {
          retries := retries[p := attempts];
          pending := pending[p := now];
        } else {
          retries := retries - {p};
        }
      }
      assert retry[..|retry|] == retry;
      ghost var v := Value();
      for i := 0 to |ready|
        invariant Value() == HandAll(v, ready[..i], now, failed)
      {
        assert ready[..i + 1][..i] == ready[..i];
        retries := retries - {ready[i]};
        if ready[i] in failed { pending := pending[ready[i] := now]; }
      }
      assert ready[..|ready|] == ready;
    }

    method EndFlush(cands: set<string>)
      modifies this
      ensures Value() == Ended(old(Value()), cands)
    {
      if !stopped { checking := checking - cands; }
    }

    method RequestStop()
      modifies this`stopped
      ensures Value() == old(Value()).(stopped := true)
    {
      stopped := true;
    }

    /** Everything held or being checked goes to the durable callback. */
    method Capture() returns (handed: set<string>)
      modifies this
      ensures handed == old(pending.Keys + checking) && Value() == Emptied(old(Value()))
    {
      handed := pending.Keys + checking;
      pending, checking, retries := map[], {}, map[];
    }
  }

  // ---------------------------------------------------------------- runs

  datatype Stage = Looking | Looked(ready: seq<string>, retry: seq<string>) | Finished

  /** A flush in flight: its paths, the last event it can have seen, and how far it has come. */
  datatype Flush = Flush(cands: set<string>, upto: nat, stage: Stage)

  /** `owed` maps a path to its last event that was neither handed on nor given up; `handed` is what `stop`
      passed to the durable callback. */
  datatype World = World(w: Watcher, flushes: map<nat, Flush>, owed: map<string, nat>, events: nat, captured: bool,
      handed: set<string>)

  datatype Action =
    | Event(path: string, now: real)
    | Begin(id: nat, now: real, debounce: real)
    | Look(id: nat, ready: seq<string>, retry: seq<string>)
    | Settle(id: nat, now: real, failed: set<string>)
    | End(id: nat)
    | Flag
    | Capture

  predicate Listed(ps: seq<string>, cands: set<string>) {
    (forall i :: 0 <= i < |ps| ==> ps[i] in cands) && (forall i, j :: 0 <= i < j < |ps| ==> ps[i] != ps[j])
  }

  predicate Enabled(s: World, a: Action) {
    match a
    case Event(_, _) => true
    case Begin(id, _, _) => id !in s.flushes && !s.w.stopped
    case Look(id, ready, retry) =>
      && id in s.flushes && s.flushes[id].stage == Looking
      && Listed(ready, s.flushes[id].cands) && Listed(retry, s.flushes[id].cands)
      && forall p :: p in ready ==> p !in retry
    case Settle(id, _, _) => id in s.flushes && s.flushes[id].stage.Looked?
    case End(id) => id in s.flushes && s.flushes[id].stage == Finished
    case Flag => !s.w.stopped
    case Capture => s.w.stopped && !s.captured
  }

  /** Obligations a flush discharges for the paths `done`: those no later event has renewed. */
  function Discharge(owed: map<string, nat>, done: set<string>, upto: nat): (r: map<string, nat>)
    ensures forall p :: p in r <==> p in owed && !(p in done && owed[p] <= upto)
    ensures forall p :: p in r ==> r[p] == owed[p]
  {
    map p | p in owed && !(p in done && owed[p] <= upto) :: owed[p]
  }

  function Gone(f: Flush, ready: seq<string>, retry: seq<string>): set<string> {
    set p | p in f.cands && p !in ready && p !in retry
  }

  /** Handed on, or failed the stability check once too often. */
  function Dealt(w: Watcher, f: Flush, failed: set<string>): set<string>
    requires f.stage.Looked?
  {
    set p | p in f.cands && ((p in f.stage.ready && p !in failed) ||
        (p in f.stage.retry && Attempts(w, p) > MAX_STABILITY_RETRIES))
  }

  function Next(s: World, a: Action): World
    requires Enabled(s, a)
  {
    match a
    case Event(p, now) =>
      if s.w.stopped then s
      else s.(w := Scheduled(s.w, p, now), owed := s.owed[p := s.events + 1], events := s.events + 1)
    case Begin(id, now, debounce) =>
      var cands := Candidates(s.w, now, debounce);
      s.(w := Taken(s.w, cands), flushes := s.flushes[id := Flush(cands, s.events, Looking)])
    case Look(id, ready, retry) =>
      var f := s.flushes[id];
      s.(flushes := s.flushes[id := f.(stage := Looked(ready, retry))],
          owed := Discharge(s.owed, Gone(f, ready, retry), f.upto))
    case Settle(id, now, failed) =>
      var f := s.flushes[id];
      s.(w := Settled(s.w, f.stage.ready, f.stage.retry, now, failed),
         flushes := s.flushes[id := f.(stage := Finished)],
         owed := if s.w.stopped then s.owed else Discharge(s.owed, Dealt(s.w, f, failed), f.upto))
    case End(id) =>
      s.(w := Ended(s.w, s.flushes[id].cands), flushes := s.flushes - {id})
    case Flag => s.(w := s.w.(stopped := true))
    case Capture => s.(w := Emptied(s.w), captured := true, handed := s.w.pending.Keys + s.w.checking)
  }

  /** The flush has yet to deal with `p`. */
  predicate Live(f: Flush, p: string) {
    p in f.cands &&
    match f.stage
    case Looking => true
    case Looked(ready, retry) => p in ready || p in retry
    case Finished => false
  }

  /** Flush `id` will deal with the last event of `p`. */
  predicate DealsWith(s: World, id: nat, p: string) {
    id in s.flushes && Live(s.flushes[id], p) && p in s.owed && s.owed[p] <= s.flushes[id].upto
  }

  /** An undelivered event is pending or in the hands of a flush that took it. */
  ghost predicate Held(s: World, p: string) {
    p in s.w.pending || exists id :: DealsWith(s, id, p)
  }

  predicate FlushOk(f: Flush, events: nat) {
    && f.upto <= events
    && (f.stage.Looked? ==>
          && Listed(f.stage.ready, f.cands) && Listed(f.stage.retry, f.cands)
          && forall p :: p in f.stage.ready ==> p !in f.stage.retry)
  }

  ghost predicate Inv(s: World) {
    && (forall p :: p in s.owed ==> s.owed[p] <= s.events)
    && (forall id :: id in s.flushes ==> FlushOk(s.flushes[id], s.events))
    && (s.captured ==> s.w.stopped)
    && (!s.w.stopped ==> forall p :: p in s.owed ==> Held(s, p))
  }

  lemma {:induction false} RetryAllKeeps(w: Watcher, ps: seq<string>, now: real, p: string)
    requires forall i, j :: 0 <= i < j < |ps| ==> ps[i] != ps[j]
    ensures var v := RetryAll(w, ps, now);
      && v.checking == w.checking && v.stopped == w.stopped
      && (p in w.pending ==> p in v.pending)
      && (p in ps && Attempts(w, p) <= MAX_STABILITY_RETRIES ==> p in v.pending)
      && (p !in ps ==> Attempts(v, p) == Attempts(w, p))
  {
    if ps != [] {
      var init, last := ps[..|ps| - 1], ps[|ps| - 1];
      assert ps == init + [last];
      RetryAllKeeps(w, init, now, p);
    }
  }

  lemma {:induction false} HandAllKeeps(w: Watcher, ps: seq<string>, now: real, failed: set<string>, p: string)
    ensures var v := HandAll(w, ps, now, failed);
      && v.checking == w.checking && v.stopped == w.stopped
      && (p in w.pending ==> p in v.pending)
      && (p in ps && p in failed ==> p in v.pending)
  {
    if ps != [] {
      var init, last := ps[..|ps| - 1], ps[|ps| - 1];
      assert ps == init + [last];
      HandAllKeeps(w, init, now, failed, p);
    }
  }

  lemma SettleHolds(s: World, id: nat, now: real, failed: set<string>, p: string)
    requires Inv(s) && !s.w.stopped && Enabled(s, Settle(id, now, failed))
    ensures var t := Next(s, Settle(id, now, failed));
      && t.w.checking == s.w.checking && !t.w.stopped
      && (p in s.w.pending ==> p in t.w.pending)
      && (p in t.owed ==> Held(t, p))
  {
    var f, t := s.flushes[id], Next(s, Settle(id, now, failed));
    RetryAllKeeps(s.w, f.stage.retry, now, p);
    HandAllKeeps(RetryAll(s.w, f.stage.retry, now), f.stage.ready, now, failed, p);
    if p in t.owed && p !in s.w.pending {
      assert Held(s, p);
      var o :| DealsWith(s, o, p);
      if o != id { assert DealsWith(t, o, p); }
    }
  }

  lemma LookHolds(s: World, a: Action, p: string)
    requires Inv(s) && !s.w.stopped && Enabled(s, a) && a.Look? && p in Next(s, a).owed
    ensures Held(Next(s, a), p)
  {
    assert Held(s, p);
    if p !in s.w.pending {
      var o :| DealsWith(s, o, p);
      if o == a.id { assert p !in Gone(s.flushes[o], a.ready, a.retry); }
      assert DealsWith(Next(s, a), o, p);
    }
  }

  lemma OtherHolds(s: World, a: Action, p: string)
    requires Inv(s) && !s.w.stopped && Enabled(s, a) && (a.Event? || a.Begin? || a.End?) && p in Next(s, a).owed
    ensures Held(Next(s, a), p)
  {
    var t := Next(s, a);
    if p !in t.w.pending {
      assert Held(s, p);
      if p in s.w.pending {
        assert DealsWith(t, a.id, p);
      } else {
        var o :| DealsWith(s, o, p);
        assert DealsWith(t, o, p);
      }
    }
  }

  /** Every step, whatever flushes share their paths: until a stop is requested, every undelivered event is pending
      or in the hands of a flush that has yet to deal with it. */
  lemma StepKeeps(s: World, a: Action)
    requires Inv(s) && Enabled(s, a)
    ensures Inv(Next(s, a))
  {
    var t := Next(s, a);
    if !t.w.stopped {
      forall p | p in t.owed ensures Held(t, p) {
        match a
        case Look(_, _, _) => LookHolds(s, a, p);
        case Settle(id, now, failed) => SettleHolds(s, id, now, failed, p);
        case Flag =>
        case Capture =>
        case _ => OtherHolds(s, a, p);
      }
    }
  }

  const START := World(Watcher(map[], {}, map[], false), map[], map[], 0, false, {})

  ghost predicate StepAt(ss: seq<World>, acts: seq<Action>, i: nat)
    requires |ss| == |acts| + 1 && i < |acts|
  {
    Enabled(ss[i], acts[i]) && ss[i + 1] == Next(ss[i], acts[i])
  }

  ghost predicate Run(ss: seq<World>, acts: seq<Action>) {
    && |ss| == |acts| + 1 && ss[0] == START
    && forall i {:trigger StepAt(ss, acts, i)} :: 0 <= i < |acts| ==> StepAt(ss, acts, i)
  }

  lemma {:induction false} RunKeeps(ss: seq<World>, acts: seq<Action>, n: nat)
    requires Run(ss, acts) && n <= |acts|
    ensures Inv(ss[n])
  {
    if n > 0 {
      RunKeeps(ss, acts, n - 1);
      assert StepAt(ss, acts, n - 1);
      StepKeeps(ss[n - 1], acts[n - 1]);
    }
  }

  // ---------------------------------------------------------------- what stop hands over

  /** A stop now would hand over, or has handed over, every path with an undelivered event. */
  predicate Covered(s: World) {
    forall p :: p in s.owed ==> if s.captured then p in s.handed else p in s.w.pending || p in s.w.checking
  }

  /** The flush that ends takes the mark off a path whose last event is neither delivered nor pending. */
  predicate Uncovers(s: World, a: Action) {
    && a.End? && a.id in s.flushes && !s.w.stopped
    && exists p :: p in s.flushes[a.id].cands && p in s.owed && p !in s.w.pending
  }

  /** That is, it shares the path with another flush, which took the last event and has yet to deal with it. */
  lemma UncoversIffShared(s: World, a: Action)
    requires Inv(s) && Enabled(s, a)
    ensures Uncovers(s, a) <==>
            && a.End? && !s.w.stopped
            && exists p, o :: p in s.flushes[a.id].cands && p !in s.w.pending && o != a.id && DealsWith(s, o, p)
  {
    if Uncovers(s, a) {
      var p :| p in s.flushes[a.id].cands && p in s.owed && p !in s.w.pending;
      assert Held(s, p);
      var o :| DealsWith(s, o, p);
      assert o != a.id;
    }
  }

  lemma CoverStep(s: World, a: Action)
    requires Inv(s) && Enabled(s, a) && Covered(s)
    ensures Covered(Next(s, a)) <==> !Uncovers(s, a)
  {
    var t := Next(s, a);
    if a.Settle? && !s.w.stopped {
      forall p | p in t.owed ensures t.w.checking == s.w.checking && (p in s.w.pending ==> p in t.w.pending) {
        SettleHolds(s, a.id, a.now, a.failed, p);
      }
      assert Covered(t);
    } else if Uncovers(s, a) {
      var p :| p in s.flushes[a.id].cands && p in s.owed && p !in s.w.pending;
      assert p in t.owed && p !in t.w.pending && p !in t.w.checking && !t.captured;
    }
  }

  lemma {:induction false} CoveredRun(ss: seq<World>, acts: seq<Action>, n: nat)
    requires Run(ss, acts) && n <= |acts| && forall i :: 0 <= i < n ==> !Uncovers(ss[i], acts[i])
    ensures Covered(ss[n])
  {
    if n > 0 {
      CoveredRun(ss, acts, n - 1);
      RunKeeps(ss, acts, n - 1);
      assert StepAt(ss, acts, n - 1);
      CoverStep(ss[n - 1], acts[n - 1]);
    }
  }

  /** Whatever the interleaving with flushes, `stop` passes every path with an undelivered event to the durable
      callback, whenever it comes, if and only if no flush ends on a path that another one has yet to deal with. */
  lemma StopCompleteIff(ss: seq<World>, acts: seq<Action>)
    requires Run(ss, acts)
    ensures (forall n :: 0 <= n < |ss| ==> Covered(ss[n])) <==>
        (forall i :: 0 <= i < |acts| ==> !Uncovers(ss[i], acts[i]))
  {
    if forall n :: 0 <= n < |ss| ==> Covered(ss[n]) {
      forall i | 0 <= i < |acts| ensures !Uncovers(ss[i], acts[i]) {
        RunKeeps(ss, acts, i);
        assert StepAt(ss, acts, i) && Covered(ss[i]) && Covered(ss[i + 1]);
        CoverStep(ss[i], acts[i]);
      }
    }
    if forall i :: 0 <= i < |acts| ==> !Uncovers(ss[i], acts[i]) {
      forall n | 0 <= n < |ss| ensures Covered(ss[n]) { CoveredRun(ss, acts, n); }
    }
  }

  // ---------------------------------------------------------------- one flush per path

  /** A flush does not take a path another flush is still busy with. */
  predicate OnePerPath(s: World, a: Action) {
    a.Begin? ==> forall id :: id in s.flushes ==> s.flushes[id].cands !! Candidates(s.w, a.now, a.debounce)
  }

  predicate Disjoint(s: World) {
    forall i, j :: i in s.flushes && j in s.flushes && i != j ==> s.flushes[i].cands !! s.flushes[j].cands
  }

  lemma {:induction false} DisjointRun(ss: seq<World>, acts: seq<Action>, n: nat)
    requires Run(ss, acts) && n <= |acts| && forall i :: 0 <= i < n ==> OnePerPath(ss[i], acts[i])
    ensures Disjoint(ss[n])
  {
    if n > 0 {
      DisjointRun(ss, acts, n - 1);
      assert StepAt(ss, acts, n - 1) && OnePerPath(ss[n - 1], acts[n - 1]);
    }
  }

  /** In particular it does so as long as no two flushes are busy with one path. */
  lemma StopHandsOverEverythingOwed(ss: seq<World>, acts: seq<Action>, n: nat)
    requires Run(ss, acts) && n <= |acts| && forall i :: 0 <= i < n ==> OnePerPath(ss[i], acts[i])
    ensures ss[n].captured ==> ss[n].owed.Keys <= ss[n].handed
    ensures !ss[n].captured ==> forall p :: p in ss[n].owed ==> p in ss[n].w.pending || p in ss[n].w.checking
  {
    forall i | 0 <= i < n ensures !Uncovers(ss[i], acts[i]) {
      DisjointRun(ss, acts, i);
      RunKeeps(ss, acts, i);
      assert StepAt(ss, acts, i);
      UncoversIffShared(ss[i], acts[i]);
    }
    CoveredRun(ss, acts, n);
  }

  lemma Extend(ss: seq<World>, acts: seq<Action>, a: Action) returns (ts: seq<World>, more: seq<Action>)
    requires Run(ss, acts) && Enabled(ss[|acts|], a)
    ensures Run(ts, more) && |more| == |acts| + 1 && ts[|more|] == Next(ss[|acts|], a)
  {
    ts, more := ss + [Next(ss[|acts|], a)], acts + [a];
    forall i | 0 <= i < |more| ensures StepAt(ts, more, i) {
      if i < |acts| { assert StepAt(ss, acts, i); }
    }
  }

  /** Both flushes have taken "p", the second for the event that came while the first was looking. */
  const MEET := World(Watcher(map[], {"p"}, map["p" := 0], false),
      map[0 := Flush({"p"}, 1, Looking), 1 := Flush({"p"}, 2, Looking)],
                      map["p" := 2], 2, false, {})

  lemma TwoFlushesMeet() returns (ss: seq<World>, acts: seq<Action>)
    ensures Run(ss, acts) && |acts| == 4 && ss[4] == MEET
  {
    ss, acts := [START], [];
    ss, acts := Extend(ss, acts, Event("p", 0.0));
    ss, acts := Extend(ss, acts, Begin(0, 2.0, 2.0));
    assert ss[2].flushes[0].cands == {"p"} && ss[2].w.pending == map[];
    var s2 := ss[2];
    assert s2.w.retries == map["p" := 0] && s2.w.checking == {"p"} && s2.flushes == map[0 := Flush({"p"}, 1, Looking)];
    ss, acts := Extend(ss, acts, Event("p", 2.5));
    assert ss[3].w.pending == map["p" := 2.5] && ss[3].w.retries == map["p" := 0] && ss[3].flushes == s2.flushes;
    assert Candidates(ss[3].w, 5.0, 2.0) == {"p"};
    ss, acts := Extend(ss, acts, Begin(1, 5.0, 2.0));
    assert ss[4].w.pending == map[] && ss[4].w.checking == {"p"} && ss[4].w.retries == map["p" := 0];
    assert ss[4].flushes == MEET.flushes && ss[4].owed == MEET.owed;
  }

  /** With two flushes busy with one path the handover can miss it: a book is changed while its flush is
      checking it, a second timer fires, and the first flush clears the mark both share. */
  lemma TwoFlushesLoseAnEvent() returns (ss: seq<World>, acts: seq<Action>)
    ensures Run(ss, acts) && ss[|acts|].captured
    ensures "p" in ss[|acts|].owed && "p" !in ss[|acts|].handed
  {
    ss, acts := TwoFlushesMeet();
    ss, acts := Extend(ss, acts, Look(0, ["p"], []));
    assert ss[5].owed == map["p" := 2] && ss[5].w == MEET.w;
    ss, acts := Extend(ss, acts, Settle(0, 5.0, {}));
    assert ["p"][..0] == [];
    assert HandAll(ss[5].w, ["p"], 5.0, {}) == HandOne(ss[5].w, "p", 5.0, false);
    assert ss[6].owed == map["p" := 2] && ss[6].w.pending == map[] && ss[6].w.checking == {"p"};
    ss, acts := Extend(ss, acts, End(0));
    assert ss[7].w.checking == {} && ss[7].w.pending == map[];
    ss, acts := Extend(ss, acts, Flag);
    ss, acts := Extend(ss, acts, Capture);
  }
}
