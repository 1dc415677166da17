/**
 * Several workers over one job table: claims that lock, commit or are lost, handlers that finish, fail or die, crashes,
 * and stale recovery, in any interleaving.
 */
module Workers {
  import opened Basics
  import opened JobQueue

  /** A handler is named by its job and by which claim of it this is. */
  datatype Handler = Handler(job: nat, attempt: nat)

  /** A task in a worker's active set; a finished one stays there until the worker collects it. */
  datatype Task = Task(worker: nat, live: bool)

  datatype State = State(jobs: seq<Job>, claims: map<nat, set<nat>>, tasks: map<Handler, Task>)

  datatype Label =
    | Enqueue(maxAttempts: nat, crawl: bool)
    | Lock(worker: nat, picked: set<nat>)
    | Grant(worker: nat, now: int, told: bool)
    | Abort(worker: nat)
    | Finish(handler: Handler, told: bool)
    | GiveUp(handler: Handler)
    | Reject(handler: Handler)
    | Die(handler: Handler)
    | Collect(handler: Handler)
    | Crash(worker: nat)
    | Recover(now: int)

  // ---- The protocol --------------------------------------------------------------------

  predicate Live(s: State, h: Handler) { h in s.tasks && s.tasks[h].live }

  predicate Locked(s: State, i: nat) { exists w :: w in s.claims && i in s.claims[w] }

  function ActiveTasks(tasks: map<Handler, Task>,
                       worker: nat): set<Handler> { set h | h in tasks && tasks[h].worker == worker }

  function NewTasks(handlers: set<Handler>,
                    worker: nat): map<Handler, Task> { map h | h in handlers :: Task(worker, true) }

  /** The handlers a granted claim starts: one for each job, under the attempt the claim has counted. */
  function Started(jobs: seq<Job>, picked: set<nat>): set<Handler> {
    set i | i in picked && i < |jobs| :: Handler(i, jobs[i].attempts + 1)
  }

  /** When a step can happen; `slots` is the worker's concurrency. A mark waits for a row that a claim has locked. */
  predicate Enabled(s: State, slots: nat, l: Label) {
    match l
    case Enqueue(_, _) => true
    case Lock(w, picked) =>
      w !in s.claims && |ActiveTasks(s.tasks, w)| + |picked| <= slots
      && AllClaimable(s.jobs, picked) && forall i :: i in picked ==> !Locked(s, i)
    case Grant(w, _, _) => w in s.claims
    case Abort(w) => w in s.claims
    case Finish(h, _) => Live(s, h) && h.job < |s.jobs| && !Locked(s, h.job)
    case GiveUp(h) => Live(s, h) && h.job < |s.jobs| && !Locked(s, h.job)
    case Reject(h) => Live(s, h) && h.job < |s.jobs| && !Locked(s, h.job)
    case Die(h) => Live(s, h)
    case Collect(h) => h in s.tasks && !s.tasks[h].live
    case Crash(_) => true
    case Recover(_) => true
  }

  function Settle(s: State, h: Handler, job: Job, live: bool): State
    requires h in s.tasks && h.job < |s.jobs|
  {
    s.(jobs := s.jobs[h.job := job], tasks := s.tasks[h := s.tasks[h].(live := live)])
  }

  /**
   * A grant that its worker is not told of starts no handler. A completion that its handler is not told of has
   * happened, but the handler goes on to report a failure.
   */
  function Apply(s: State, slots: nat, l: Label): State
    requires Enabled(s, slots, l)
  {
    match l
    case Enqueue(maxAttempts, crawl) => s.(jobs := s.jobs + [Job(Pending, 0, maxAttempts, None, crawl)])
    case Lock(w, picked) => s.(claims := s.claims[w := picked])
    case Grant(w, now, told) =>
      var picked := s.claims[w];
      State(ClaimAll(s.jobs, picked, now), s.claims - {w},
            if told then s.tasks + NewTasks(Started(s.jobs, picked), w) else s.tasks)
    case Abort(w) => s.(claims := s.claims - {w})
    case Finish(h, told) => Settle(s, h, s.jobs[h.job].(status := Complete), !told)
    case GiveUp(h) => Settle(s, h, Fail(s.jobs[h.job], h.attempt, s.jobs[h.job].maxAttempts), false)
    case Reject(h) => Settle(s, h, s.jobs[h.job].(status := Failed), false)
    case Die(h) => s.(tasks := s.tasks[h := s.tasks[h].(live := false)])
    case Collect(h) => s.(tasks := s.tasks - {h})
    case Crash(w) => s.(claims := s.claims - {w}, tasks := map h | h in s.tasks && s.tasks[h].worker != w :: s.tasks[h])
    case Recover(now) => s.(jobs := RecoverAll(s.jobs, now))
  }

  predicate IsRun(s: State, slots: nat, run: seq<Label>)
    decreases |run|
  {
    |run| == 0 || (Enabled(s, slots, run[0]) && IsRun(Apply(s, slots, run[0]), slots, run[1..]))
  }

  function After(s: State, slots: nat, run: seq<Label>): State
    requires IsRun(s, slots, run)
    decreases |run|
  {
    if |run| == 0 then s else After(Apply(s, slots, run[0]), slots, run[1..])
  }

  const INITIAL: State := State([], map[], map[])

  // ---- What every run keeps --------------------------------------------------------------

  predicate AllClaimable(jobs: seq<Job>, picked: set<nat>) {
    forall i :: i in picked ==> i < |jobs| && Claimable(jobs[i])
  }

  predicate ClaimsOk(s: State) {
    && (forall w :: w in s.claims ==> AllClaimable(s.jobs, s.claims[w]))
    && (forall v, w :: v in s.claims && w in s.claims && v != w ==> s.claims[v] !! s.claims[w])
  }

  predicate JobsOk(s: State) {
    && (forall i :: 0 <= i < |s.jobs| ==> s.jobs[i].attempts <= s.jobs[i].maxAttempts)
    && (forall h :: h in s.tasks ==> h.job < |s.jobs| && h.attempt <= s.jobs[h.job].attempts)
  }

  predicate Busy(s: State, slots: nat, w: nat) {
    |ActiveTasks(s.tasks, w)| + (if w in s.claims then |s.claims[w]| else 0) <= slots
  }

  ghost predicate Inv(s: State, slots: nat) {
    ClaimsOk(s) && JobsOk(s) && forall w: nat :: Busy(s, slots, w)
  }

  lemma {:induction false} StartedCount(jobs: seq<Job>, picked: set<nat>)
    requires forall i :: i in picked ==> i < |jobs|
    ensures |Started(jobs, picked)| == |picked|
  {
    if picked != {} {
      var i :| i in picked;
      StartedCount(jobs, picked - {i});
      assert Started(jobs, picked) == Started(jobs, picked - {i}) + {Handler(i, jobs[i].attempts + 1)};
      assert Handler(i, jobs[i].attempts + 1) !in Started(jobs, picked - {i});
    }
  }

  lemma FewerTasks(a: map<Handler, Task>, b: map<Handler, Task>, w: nat)
    requires forall h :: h in b ==> h in a && b[h].worker == a[h].worker
    ensures |ActiveTasks(b, w)| <= |ActiveTasks(a, w)|
  {
    SubsetSize(ActiveTasks(b, w), ActiveTasks(a, w));
  }

  lemma MoreTasks(tasks: map<Handler, Task>, handlers: set<Handler>, w: nat, v: nat)
    requires forall h :: h in handlers ==> h !in tasks
    ensures |ActiveTasks(tasks + NewTasks(handlers, w), v)| ==
      |ActiveTasks(tasks, v)| + (if v == w then |handlers| else 0)
  {
    if v == w {
      assert ActiveTasks(tasks + NewTasks(handlers, w), v) == ActiveTasks(tasks, v) + handlers;
    } else {
      assert ActiveTasks(tasks + NewTasks(handlers, w), v) == ActiveTasks(tasks, v);
    }
  }

  lemma GrantKeepsSlots(s: State, slots: nat, l: Label, v: nat)
    requires Inv(s, slots) && l.Grant? && Enabled(s, slots, l)
    ensures Busy(Apply(s, slots, l), slots, v)
  {
    var picked := s.claims[l.worker];
    assert AllClaimable(s.jobs, picked);
    assert Busy(s, slots, v) && Busy(s, slots, l.worker);
    assert forall h :: h in Started(s.jobs, picked) ==> h !in s.tasks;
    StartedCount(s.jobs, picked);
    MoreTasks(s.tasks, Started(s.jobs, picked), l.worker, v);
  }

  lemma StepKeepsSlots(s: State, slots: nat, l: Label, w: nat)
    requires Inv(s, slots) && Enabled(s, slots, l)
    ensures Busy(Apply(s, slots, l), slots, w)
  {
    assert Busy(s, slots, w);
    if l.Grant? {
      GrantKeepsSlots(s, slots, l, w);
    } else {
      FewerTasks(s.tasks, Apply(s, slots, l).tasks, w);
    }
  }

  lemma StepKeepsJobs(s: State, slots: nat, l: Label)
    requires Inv(s, slots) && Enabled(s, slots, l)
    ensures JobsOk(Apply(s, slots, l))
  {
    if l.Grant? { assert AllClaimable(s.jobs, s.claims[l.worker]); }
  }

  /** A job that some transaction has locked changes in no step but the grant of that claim. */
  lemma LockedJobWaits(s: State, slots: nat, l: Label, w: nat)
    requires Inv(s, slots) && Enabled(s, slots, l) && w in s.claims
    requires w in Apply(s, slots, l).claims && !(l.Lock? && l.worker == w)
    ensures AllClaimable(Apply(s, slots, l).jobs, s.claims[w])
  {
    var picked, after := s.claims[w], Apply(s, slots, l).jobs;
    assert AllClaimable(s.jobs, picked);
    if l.Grant? { assert s.claims[l.worker] !! picked; }
    forall i | i in picked ensures i < |after| && Claimable(after[i]) {
      assert Locked(s, i);
    }
  }

  lemma StepKeepsClaims(s: State, slots: nat, l: Label)
    requires Inv(s, slots) && Enabled(s, slots, l)
    ensures ClaimsOk(Apply(s, slots, l))
  {
    var after := Apply(s, slots, l);
    forall w | w in after.claims ensures AllClaimable(after.jobs, after.claims[w]) {
      if !(l.Lock? && l.worker == w) { LockedJobWaits(s, slots, l, w); }
    }
    if l.Lock? {
      forall v | v in s.claims ensures s.claims[v] !! l.picked {
        assert forall i :: i in s.claims[v] ==> Locked(s, i);
      }
    }
  }

  lemma StepKeeps(s: State, slots: nat, l: Label)
    requires Inv(s, slots) && Enabled(s, slots, l)
    ensures Inv(Apply(s, slots, l), slots)
  {
    StepKeepsJobs(s, slots, l);
    StepKeepsClaims(s, slots, l);
    forall w: nat ensures Busy(Apply(s, slots, l), slots, w) { StepKeepsSlots(s, slots, l, w); }
  }
}
