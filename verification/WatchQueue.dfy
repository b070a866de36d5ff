/**
 The durable Watch queue.  Observer threads add paths while one worker uploads; every record that
 must survive a restart is saved through a callback that may fail.  Each function is one atomic
 section of the program: what happens under the queue's lock, or between two points at which
 another thread can act.  `WatchRetryQueue` runs the same sections on its fields.
 */
module WatchQueue {
  /** The saved record of one path; a blank fingerprint is the record `{}`. */
  datatype Record = Record(fp: seq<nat>, targets: set<string>, completed: set<string>)

  const EMPTY := Record([], {}, {})

  datatype Job = Job(state: Record, due: real, failures: nat, generation: nat, deferred: bool)

  /** The worker's position in one pass and its local variables. */
  datatype Phase =
    | Idle
    | Picked(path: string)
    | Started(path: string, gen: nat)
    | Saved(path: string, gen: nat, fp: seq<nat>, keys: map<string, string>, completed: set<string>)
    | Planned(path: string, gen: nat, fp: seq<nat>, keys: map<string, string>, completed: set<string>)
    | Uploaded(path: string, gen: nat, fp: seq<nat>, keys: map<string, string>, completed: set<string>, ok: set<string>)
    | HalfWritten(path: string, gen: nat, fp: seq<nat>, current: set<string>, acked: set<string>)
    | Written(path: string, gen: nat, fp: seq<nat>, current: set<string>, acked: set<string>)
    | Done(path: string, gen: nat, complete: bool)

  datatype Queue = Queue(jobs: map<string, Job>, finished: map<string, Record>, saved: map<string, Record>,
      stopped: bool, phase: Phase)

  // ---------------------------------------------------------------- retry delays

  const MAX_FAILURES := 30

  function Power(n: nat): (r: real)
    ensures r >= 1.0
  {
    if n == 0 then 1.0 else 2.0 * Power(n - 1)
  }

  function Doubled(base: real, times: nat): real {
    base * Power(times)
  }

  function Backoff(failures: nat, base: real, cap: real): real
    requires failures > 0
  {
    var delay := Doubled(base, failures - 1);
    if delay < cap then delay else cap
  }

  // ---------------------------------------------------------------- starting and adding

  /** A new queue over the saved records. */
  function Load(saved: map<string, Record>): Queue {
    Queue(map p | p in saved :: Job(saved[p], 0.0, 0, 0, false), map[], saved, false, Idle)
  }

  function Known(q: Queue, p: string): Record {
    if p in q.finished then q.finished[p] else EMPTY
  }

  /** A duplicate event: another pass is owed; a fresh event wakes a deferred job. */
  function Again(j: Job, deferred: bool): Job {
    var woken := if !deferred && j.deferred then j.(deferred := false, due := 0.0) else j;
    woken.(generation := j.generation + 1)
  }

  function Store(q: Queue, p: string, r: Record, saves: bool): map<string, Record> {
    if saves then q.saved[p := r] else q.saved
  }

  /** `_add`, under the lock; `saves` says whether the save callback succeeded. */
  function Added(q: Queue, p: string, deferred: bool, saves: bool): Queue {
    if q.stopped && !deferred then q
    else if p in q.jobs then
      q.(jobs := q.jobs[p := Again(q.jobs[p], deferred)],
         saved := if deferred then Store(q, p, q.jobs[p].state, saves) else q.saved)
    else
      q.(jobs := q.jobs[p := Job(Known(q, p), 0.0, 0, 0, deferred)], saved := Store(q, p, Known(q, p), saves))
  }

  // ---------------------------------------------------------------- one pass of the worker

  /** The worker may take `p`: nothing that waits is due earlier. */
  predicate CanPick(q: Queue, p: string, now: real) {
    && q.phase == Idle && !q.stopped
    && p in q.jobs && !q.jobs[p].deferred && q.jobs[p].due <= now
    && forall o :: o in q.jobs && !q.jobs[o].deferred ==> q.jobs[p].due <= q.jobs[o].due
  }

  function Begun(q: Queue): Queue
    requires q.phase.Picked? && q.phase.path in q.jobs
  {
    q.(phase := Started(q.phase.path, q.jobs[q.phase.path].generation))
  }

  /** The acknowledged targets that still count for this content. */
  function Carried(previous: Record, fp: seq<nat>, keys: map<string, string>): set<string> {
    (if previous.fp == fp then previous.completed else {}) * keys.Keys
  }

  /** The record is saved before anything is uploaded; a failed save ends the pass. */
  function PlanSaved(q: Queue, fp: seq<nat>, keys: map<string, string>, saves: bool): Queue
    requires q.phase.Started? && q.phase.path in q.jobs
  {
    var p := q.phase.path;
    var completed := Carried(q.jobs[p].state, fp, keys);
    if saves then
      q.(saved := q.saved[p := Record(fp, keys.Keys, completed)], phase := Saved(p, q.phase.gen, fp, keys, completed))
    else q.(phase := Done(p, q.phase.gen, false))
  }

  function PlanAssigned(q: Queue): Queue
    requires q.phase.Saved? && q.phase.path in q.jobs
  {
    var p := q.phase.path;
    q.(jobs := q.jobs[p := q.jobs[p].(state := Record(q.phase.fp, q.phase.keys.Keys, q.phase.completed))],
       phase := Planned(p, q.phase.gen, q.phase.fp, q.phase.keys, q.phase.completed))
  }

  /** The targets a pass uploads to. */
  function Owed(keys: map<string, string>, completed: set<string>): (ks: set<string>)
    ensures forall k :: k in ks <==> k in keys && k !in completed
  {
    set k | k in keys && k !in completed
  }

  /** The upload acknowledged the addresses `ok`; with nothing owed there is no upload. */
  function Attempted(q: Queue, ok: set<string>): Queue
    requires q.phase.Planned?
  {
    var ph := q.phase;
    var answers := if Owed(ph.keys, ph.completed) == {} then {} else ok;
    q.(phase := Uploaded(ph.path, ph.gen, ph.fp, ph.keys, ph.completed, answers))
  }

  /** What is acknowledged once the answers are in, among the targets now configured. */
  function Acknowledged(keys: map<string, string>, completed: set<string>, ok: set<string>,
          current: set<string>): set<string> {
    (completed + set k | k in keys && keys[k] in ok) * current
  }

  /** The source is fingerprinted again: changed content forgets the record, unchanged content gets the
      new target list.  The record's two fields are written one after the other. */
  function Rechecked(q: Queue, fpNow: seq<nat>, current: set<string>, saves: bool): Queue
    requires q.phase.Uploaded? && q.phase.path in q.jobs
  {
    var ph := q.phase;
    var job := q.jobs[ph.path];
    if fpNow != ph.fp then
      q.(jobs := q.jobs[ph.path := job.(state := EMPTY)], saved := Store(q, ph.path, EMPTY, saves),
          phase := Done(ph.path, ph.gen, false))
    else
      q.(jobs := q.jobs[ph.path := job.(state := job.state.(targets := current))],
         phase := HalfWritten(ph.path, ph.gen, ph.fp, current, Acknowledged(ph.keys, ph.completed, ph.ok, current)))
  }

  function Completed(q: Queue): Queue
    requires q.phase.HalfWritten? && q.phase.path in q.jobs
  {
    var ph := q.phase;
    var job := q.jobs[ph.path];
    q.(jobs := q.jobs[ph.path := job.(state := job.state.(completed := ph.acked))],
       phase := Written(ph.path, ph.gen, ph.fp, ph.current, ph.acked))
  }

  function ResultSaved(q: Queue, saves: bool): Queue
    requires q.phase.Written? && q.phase.path in q.jobs
  {
    var ph := q.phase;
    q.(saved := Store(q, ph.path, q.jobs[ph.path].state, saves),
       phase := Done(ph.path, ph.gen, saves && ph.current != {} && ph.acked == ph.current))
  }

  /** A missing, unstable or unreadable source, a failed upload or a stop request ends the pass early. */
  predicate CanGiveUp(q: Queue) {
    q.phase.Started? || q.phase.Planned? || q.phase.Uploaded?
  }

  function GivenUp(q: Queue): Queue
    requires CanGiveUp(q)
  {
    q.(phase := Done(q.phase.path, q.phase.gen, false))
  }

  /** The end of a pass, under the lock: only a complete pass with no event since it began retires the job,
      and only after the removal is saved. */
  function Concluded(q: Queue, saves: bool, now: real, base: real, cap: real): Queue
    requires q.phase.Done? && q.phase.path in q.jobs
  {
    var p, job := q.phase.path, q.jobs[q.phase.path];
    if q.phase.complete && q.phase.gen == job.generation then
      if saves then q.(jobs := q.jobs - {p}, finished := q.finished[p := job.state], saved := q.saved - {p},
          phase := Idle)
      else q.(jobs := q.jobs[p := job.(due := now + base)], phase := Idle)
    else if q.phase.complete then q.(jobs := q.jobs[p := job.(due := 0.0)], phase := Idle)
    else
      var failures := if job.failures + 1 < MAX_FAILURES then job.failures + 1 else MAX_FAILURES;
      q.(jobs := q.jobs[p := job.(failures := failures, due := now + Backoff(failures, base, cap))], phase := Idle)
  }

  // ---------------------------------------------------------------- the object

  class WatchRetryQueue {
    var jobs: map<string, Job>
    var finished: map<string, Record>
    var saved: map<string, Record>
    var stopped: bool
    var phase: Phase
    const retryBase: real
    const retryCap: real

    ghost function Value(): Queue
      reads this
    {
      Queue(jobs, finished, saved, stopped, phase)
    }

    constructor (records: map<string, Record>, base: real, cap: real)
      ensures Value() == Load(records) && retryBase == base && retryCap == cap
    {
      jobs := map p | p in records :: Job(records[p], 0.0, 0, 0, false);
      finished, saved, stopped, phase := map[], records, false, Idle;
      retryBase, retryCap := base, cap;
    }

    method Save(path: string, r: Record, saves: bool)
      modifies this`saved
      ensures saved == Store(old(Value()), path, r, saves)
    {
      if saves { saved := saved[path := r]; }
    }

    /** Returns whether the path is new to the queue. */
    method Add(path: string, deferred: bool, saves: bool) returns (isNew: bool)
      modifies this
      ensures Value() == Added(old(Value()), path, deferred, saves)
      ensures isNew <==> old(path !in jobs) && path in jobs
      ensures !(old(stopped) && !deferred) ==> path in jobs
    {
      if stopped && !deferred { return false; }
      if path in jobs {
        var job := jobs[path];
        job := job.(generation := job.generation + 1);
        if !deferred && job.deferred { job := job.(deferred := false, due := 0.0); }
        jobs := jobs[path := job];
        if deferred { Save(path, job.state, saves); }
        return false;
      }
      var state := if path in finished then finished[path] else EMPTY;
      jobs := jobs[path := Job(state, 0.0, 0, 0, deferred)];
      Save(path, state, saves);
      return true;
    }

    method Stop()
      modifies this`stopped
      ensures Value() == old(Value()).(stopped := true)
    {
      stopped := true;
    }

    /** The job that is due first among those not deferred; `None` when all wait or none is due. */
    method Pick(now: real) returns (found: bool, path: string)
      requires phase == Idle && !stopped
      modifies this`phase
      ensures found ==> old(CanPick(Value(), path, now)) && Value() == old(Value()).(phase := Picked(path))
      ensures !found ==> Value() == old(Value()) && forall p :: p in jobs && !jobs[p].deferred ==> jobs[p].due > now
    {
      found, path := false, "";
      var left := jobs.Keys;
      while left != {}
        invariant left <= jobs.Keys
        invariant found ==> path in jobs && path !in left && !jobs[path].deferred
        invariant forall o :: o in jobs && o !in left && !jobs[o].deferred ==> found && jobs[path].due <= jobs[o].due
        decreases |left|
      {
        var p :| p in left;
        if !jobs[p].deferred && (!found || jobs[p].due < jobs[path].due) { found, path := true, p; }
        left := left - {p};
      }
      if found && jobs[path].due <= now { phase := Picked(path); } else { found := false; }
    }

    method Begin()
      requires phase.Picked? && phase.path in jobs
      modifies this`phase
      ensures Value() == Begun(old(Value()))
    {
      phase := Started(phase.path, jobs[phase.path].generation);
    }

    method SavePlan(fp: seq<nat>, keys: map<string, string>, saves: bool)
      requires phase.Started? && phase.path in jobs
      modifies this
      ensures Value() == PlanSaved(old(Value()), fp, keys, saves)
    {
      var path, gen, previous := phase.path, phase.gen, jobs[phase.path].state;
      var completed: set<string> := {};
      if previous.fp == fp { completed := previous.completed; }
      completed := completed * keys.Keys;
      Save(path, Record(fp, keys.Keys, completed), saves);
      phase := if saves then Saved(path, gen, fp, keys, completed) else Done(path, gen, false);
    }

    method AssignPlan()
      requires phase.Saved? && phase.path in jobs
      modifies this
      ensures Value() == PlanAssigned(old(Value()))
    {
      jobs := jobs[phase.path := jobs[phase.path].(state := Record(phase.fp, phase.keys.Keys, phase.completed))];
      phase := Planned(phase.path, phase.gen, phase.fp, phase.keys, phase.completed);
    }

    /** The answers of the upload, or no upload at all when nothing is owed. */
    method Attempt(ok: set<string>)
      requires phase.Planned? && !stopped
      modifies this`phase
      ensures Value() == Attempted(old(Value()), ok)
    {
      var pending := Owed(phase.keys, phase.completed);
      var results := if pending != {} then ok else {};
      phase := Uploaded(phase.path, phase.gen, phase.fp, phase.keys, phase.completed, results);
    }

    method GiveUp()
      requires CanGiveUp(Value())
      modifies this`phase
      ensures Value() == GivenUp(old(Value()))
    {
      phase := Done(phase.path, phase.gen, false);
    }

    /** A changed source is never acknowledged under the old fingerprint. */
    method Recheck(fpNow: seq<nat>, current: set<string>, saves: bool)
      requires phase.Uploaded? && phase.path in jobs
      modifies this
      ensures Value() == Rechecked(old(Value()), fpNow, current, saves)
    {
      var ph, job := phase, jobs[phase.path];
      if fpNow != ph.fp {
        jobs := jobs[ph.path := job.(state := EMPTY)];
        Save(ph.path, EMPTY, saves);
        phase := Done(ph.path, ph.gen, false);
        return;
      }
      var acked := ph.completed + set k | k in ph.keys && ph.keys[k] in ph.ok;
      acked := acked * current;
      jobs := jobs[ph.path := job.(state := job.state.(targets := current))];
      phase := HalfWritten(ph.path, ph.gen, ph.fp, current, acked);
    }

    method SetCompleted()
      requires phase.HalfWritten? && phase.path in jobs
      modifies this
      ensures Value() == Completed(old(Value()))
    {
      var ph, job := phase, jobs[phase.path];
      jobs := jobs[ph.path := job.(state := job.state.(completed := ph.acked))];
      phase := Written(ph.path, ph.gen, ph.fp, ph.current, ph.acked);
    }

    method SaveResult(saves: bool)
      requires phase.Written? && phase.path in jobs
      modifies this
      ensures Value() == ResultSaved(old(Value()), saves)
    {
      var ph := phase;
      Save(ph.path, jobs[ph.path].state, saves);
      phase := Done(ph.path, ph.gen, saves && ph.current != {} && ph.acked == ph.current);
    }

    method Conclude(saves: bool, now: real)
      requires phase.Done? && phase.path in jobs
      modifies this
      ensures Value() == Concluded(old(Value()), saves, now, retryBase, retryCap)
    {
      var path, complete, job := phase.path, phase.complete, jobs[phase.path];
      var current := phase.gen == job.generation;
      phase := Idle;
      if complete && current {
        if !saves {
          jobs := jobs[path := job.(due := now + retryBase)];
          return;
        }
        saved := saved - {path};
        finished := finished[path := job.state];
        jobs := jobs - {path};
      } else if complete {
        jobs := jobs[path := job.(due := 0.0)];
      } else {
        var failures := if job.failures + 1 < MAX_FAILURES then job.failures + 1 else MAX_FAILURES;
        jobs := jobs[path := job.(failures := failures, due := now + Backoff(failures, retryBase, retryCap))];
      }
    }
  }
}
