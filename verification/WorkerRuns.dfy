/** What holds of every run of the workers, what holds only of clean runs, and which steps are not clean. */
module WorkerRuns {
  import opened Basics
  import opened JobQueue
  import opened Workers

  lemma {:induction false} RunKeeps(s: State, slots: nat, run: seq<Label>)
    requires Inv(s, slots) && IsRun(s, slots, run)
    ensures Inv(After(s, slots, run), slots)
    decreases |run|
  {
    if |run| == 0 {
    } else {
      StepKeeps(s, slots, run[0]);
      RunKeeps(Apply(s, slots, run[0]), slots, run[1..]);
    }
  }

  /** In every run no worker has more active tasks than slots, and no two open claims hold the same job. */
  lemma ClaimsAreDisjoint(slots: nat, run: seq<Label>, v: nat, w: nat)
    requires IsRun(INITIAL, slots, run)
    ensures var s := After(INITIAL, slots, run);
            |ActiveTasks(s.tasks, w)| <= slots &&
              (v in s.claims && w in s.claims && v != w ==> s.claims[v] !! s.claims[w])
  {
    RunKeeps(INITIAL, slots, run);
    assert Busy(After(INITIAL, slots, run), slots, w);
  }

  lemma {:induction false} FewElements(s: seq<nat>)
    ensures |Elements(s)| <= |s|
  {
    if |s| == 0 {
    } else {
      FewElements(s[..|s| - 1]);
      assert Elements(s) == Elements(s[..|s| - 1]) + {s[|s| - 1]};
    }
  }

  /**
   * The oldest free rows, taken within the worker's free slots, are a claim the protocol allows, and it grants them.
   */
  lemma ClaimIsAStep(s: State, slots: nat, w: nat, locked: set<nat>, limit: nat, picked: seq<nat>, now: int)
    requires w !in s.claims && |ActiveTasks(s.tasks, w)| + limit <= slots
    requires forall i: nat :: Locked(s, i) ==> i in locked
    requires IsClaim(s.jobs, locked, limit, picked)
    ensures Enabled(s, slots, Lock(w, Elements(picked)))
    ensures Apply(Apply(s, slots, Lock(w, Elements(picked))), slots, Grant(w, now, true)).jobs ==
      ClaimAll(s.jobs, Elements(picked), now)
  {
    FewElements(picked);
  }

  // ---- Attempts count claims ---------------------------------------------------------------

  predicate Grants(s: State, l: Label, i: nat) { l.Grant? && l.worker in s.claims && i in s.claims[l.worker] }

  function Claims(s: State, slots: nat, run: seq<Label>, i: nat): nat
    requires IsRun(s, slots, run)
    decreases |run|
  {
    if |run| == 0 then 0
    else (if Grants(s, run[0], i) then 1 else 0) + Claims(Apply(s, slots, run[0]), slots, run[1..], i)
  }

  function Attempts(s: State, i: nat): nat { if i < |s.jobs| then s.jobs[i].attempts else 0 }

  lemma StepCountsAttempts(s: State, slots: nat, l: Label, i: nat)
    requires Inv(s, slots) && Enabled(s, slots, l)
    ensures Attempts(Apply(s, slots, l), i) == Attempts(s, i) + (if Grants(s, l, i) then 1 else 0)
  {
    if l.Grant? { assert AllClaimable(s.jobs, s.claims[l.worker]); }
  }

  lemma {:induction false} RunCountsAttempts(s: State, slots: nat, run: seq<Label>, i: nat)
    requires Inv(s, slots) && IsRun(s, slots, run)
    ensures Attempts(After(s, slots, run), i) == Attempts(s, i) + Claims(s, slots, run, i)
    decreases |run|
  {
    if |run| == 0 {
    } else {
      StepKeeps(s, slots, run[0]);
      StepCountsAttempts(s, slots, run[0], i);
      RunCountsAttempts(Apply(s, slots, run[0]), slots, run[1..], i);
    }
  }

  /** A job's attempts are the number of times it was claimed, in every run, and never exceed its maximum. */
  lemma AttemptsAreClaims(slots: nat, run: seq<Label>, i: nat)
    requires IsRun(INITIAL, slots, run) && i < |After(INITIAL, slots, run).jobs|
    ensures var job := After(INITIAL, slots, run).jobs[i];
            job.attempts == Claims(INITIAL, slots, run, i) <= job.maxAttempts
  {
    RunKeeps(INITIAL, slots, run);
    RunCountsAttempts(INITIAL, slots, run, i);
  }

  // ---- Handler runs are bounded --------------------------------------------------------------

  /** The attempts that are left, over all jobs. */
  function Room(jobs: seq<Job>): int {
    if |jobs| == 0 then 0 else
      var last := jobs[|jobs| - 1];
      Room(jobs[..|jobs| - 1]) + last.maxAttempts - last.attempts
  }

  lemma {:induction false} SameRoom(a: seq<Job>, b: seq<Job>)
    requires |a| == |b|
    requires forall i :: 0 <= i < |a| ==> a[i].attempts == b[i].attempts && a[i].maxAttempts == b[i].maxAttempts
    ensures Room(a) == Room(b)
  {
    if |a| == 0 {
    } else {
      SameRoom(a[..|a| - 1], b[..|a| - 1]);
    }
  }

  lemma {:induction false} ClaimTakesRoom(jobs: seq<Job>, picked: set<nat>, now: int)
    requires forall i :: i in picked ==> i < |jobs|
    ensures Room(ClaimAll(jobs, picked, now)) == Room(jobs) - |picked|
  {
    if |jobs| == 0 {
      assert picked == {};
    } else {
      var n := |jobs| - 1;
      ClaimTakesRoom(jobs[..n], picked - {n}, now);
      assert ClaimAll(jobs, picked, now)[..n] == ClaimAll(jobs[..n], picked - {n}, now);
    }
  }

  lemma {:induction false} RoomIsLeft(jobs: seq<Job>)
    requires forall i :: 0 <= i < |jobs| ==> jobs[i].attempts <= jobs[i].maxAttempts
    ensures Room(jobs) >= 0
  {
    if |jobs| == 0 {
    } else {
      RoomIsLeft(jobs[..|jobs| - 1]);
    }
  }

  /** How many handlers a step starts. */
  function StartedBy(s: State, l: Label): nat {
    if l.Grant? && l.worker in s.claims then |s.claims[l.worker]| else 0
  }

  function Added(l: Label): nat { if l.Enqueue? then l.maxAttempts else 0 }

  lemma StepTakesRoom(s: State, slots: nat, l: Label)
    requires Inv(s, slots) && Enabled(s, slots, l)
    ensures Room(Apply(s, slots, l).jobs) == Room(s.jobs) - StartedBy(s, l) + Added(l)
  {
    var after := Apply(s, slots, l).jobs;
    match l
    case Enqueue(_, _) => assert after[..|after| - 1] == s.jobs;
    case Grant(w, now, _) =>
      assert AllClaimable(s.jobs, s.claims[w]);
      ClaimTakesRoom(s.jobs, s.claims[w], now);
    case _ => SameRoom(s.jobs, after);
  }

  function Starts(s: State, slots: nat, run: seq<Label>): nat
    requires IsRun(s, slots, run)
    decreases |run|
  {
    if |run| == 0 then 0 else StartedBy(s, run[0]) + Starts(Apply(s, slots, run[0]), slots, run[1..])
  }

  function Supply(run: seq<Label>): nat {
    if |run| == 0 then 0 else Added(run[0]) + Supply(run[1..])
  }

  /**
   * Each claim takes its jobs' attempts from a finite supply: whatever crashes and recovers, the handlers a run starts
   * are no more than the attempts its jobs were enqueued with, and what is left is what the jobs still have.
   */
  lemma {:induction false} HandlerRunsAreBounded(s: State, slots: nat, run: seq<Label>)
    requires Inv(s, slots) && IsRun(s, slots, run)
    ensures Room(After(s, slots, run).jobs) == Room(s.jobs) + Supply(run) - Starts(s, slots, run)
    ensures Starts(s, slots, run) <= Room(s.jobs) + Supply(run)
    decreases |run|
  {
    if |run| > 0 {
      StepKeeps(s, slots, run[0]);
      StepTakesRoom(s, slots, run[0]);
      HandlerRunsAreBounded(Apply(s, slots, run[0]), slots, run[1..]);
    }
    RunKeeps(s, slots, run);
    RoomIsLeft(After(s, slots, run).jobs);
  }

  // ---- While recovery spares live handlers -----------------------------------------------------

  /** Recovery takes no job whose handler is alive, and a handler that completed its job knows it. */
  predicate Clean(s: State, l: Label) {
    && (l.Recover? ==> SparesLive(s, l.now))
    && (l.Finish? ==> l.told)
  }

  predicate SparesLive(s: State, now: int) {
    forall h :: h in s.tasks && s.tasks[h].live && h.job < |s.jobs| ==> !Stale(s.jobs[h.job], now)
  }

  predicate IsCleanRun(s: State, slots: nat, run: seq<Label>)
    decreases |run|
  {
    |run| == 0 || (Enabled(s, slots, run[0]) && Clean(s, run[0]) &&
      IsCleanRun(Apply(s, slots, run[0]), slots, run[1..]))
  }

  lemma {:induction false} CleanIsRun(s: State, slots: nat, run: seq<Label>)
    requires IsCleanRun(s, slots, run)
    ensures IsRun(s, slots, run)
    decreases |run|
  {
    if |run| == 0 {
    } else {
      CleanIsRun(Apply(s, slots, run[0]), slots, run[1..]);
    }
  }

  /** A live handler's job is running, on the handler's own attempt. */
  predicate Faithful(s: State) {
    forall h :: h in s.tasks && s.tasks[h].live ==>
      h.job < |s.jobs| && s.jobs[h.job].status == Running && s.jobs[h.job].attempts == h.attempt
  }

  lemma GrantKeepsFaithful(s: State, slots: nat, l: Label)
    requires Inv(s, slots) && Faithful(s) && l.Grant? && Enabled(s, slots, l)
    ensures Faithful(Apply(s, slots, l))
  {
    assert AllClaimable(s.jobs, s.claims[l.worker]);
  }

  lemma CleanStepKeeps(s: State, slots: nat, l: Label)
    requires Inv(s, slots) && Faithful(s) && Enabled(s, slots, l) && Clean(s, l)
    ensures Faithful(Apply(s, slots, l))
  {
    if l.Grant? { GrantKeepsFaithful(s, slots, l); }
  }

  lemma {:induction false} CleanRunKeeps(s: State, slots: nat, run: seq<Label>)
    requires Inv(s, slots) && Faithful(s) && IsCleanRun(s, slots, run)
    ensures IsRun(s, slots, run) && Inv(After(s, slots, run), slots) && Faithful(After(s, slots, run))
    decreases |run|
  {
    CleanIsRun(s, slots, run);
    if |run| == 0 {
    } else {
      StepKeeps(s, slots, run[0]);
      CleanStepKeeps(s, slots, run[0]);
      CleanRunKeeps(Apply(s, slots, run[0]), slots, run[1..]);
    }
  }

  /** In a clean run a job has at most one live handler, and then it is running. */
  lemma OneLiveHandler(slots: nat, run: seq<Label>, g: Handler, h: Handler)
    requires IsRun(INITIAL, slots, run) && IsCleanRun(INITIAL, slots, run)
    requires Live(After(INITIAL, slots, run), g) && Live(After(INITIAL, slots, run), h) && g.job == h.job
    ensures g == h && g.job < |After(INITIAL, slots, run).jobs|
    ensures After(INITIAL, slots, run).jobs[g.job].status == Running
  {
    CleanRunKeeps(INITIAL, slots, run);
  }

  predicate Ended(s: State, i: nat) { i < |s.jobs| && s.jobs[i].status in {Complete, Failed} }

  lemma EndedStays(s: State, slots: nat, l: Label, i: nat)
    requires Inv(s, slots) && Faithful(s) && Enabled(s, slots, l) && Clean(s, l) && Ended(s, i)
    ensures Ended(Apply(s, slots, l), i) && Apply(s, slots, l).jobs[i] == s.jobs[i]
  {
    if l.Grant? { assert AllClaimable(s.jobs, s.claims[l.worker]); }
  }

  /** In a clean run a complete or failed job is never touched again. */
  lemma {:induction false} EndedForGood(s: State, slots: nat, run: seq<Label>, i: nat)
    requires Inv(s, slots) && Faithful(s) && IsCleanRun(s, slots, run) && Ended(s, i)
    ensures IsRun(s, slots, run) && Ended(After(s, slots, run), i) && After(s, slots, run).jobs[i] == s.jobs[i]
    decreases |run|
  {
    CleanIsRun(s, slots, run);
    if |run| == 0 {
    } else {
      EndedStays(s, slots, run[0], i);
      StepKeeps(s, slots, run[0]);
      CleanStepKeeps(s, slots, run[0]);
      EndedForGood(Apply(s, slots, run[0]), slots, run[1..], i);
    }
  }

  /** A handler that ends changes the status of its own row and nothing else of any row. */
  lemma HandlerMarksItsRow(s: State, slots: nat, l: Label)
    requires Enabled(s, slots, l) && (l.Finish? || l.GiveUp? || l.Reject?)
    ensures var job, after := s.jobs[l.handler.job], Apply(s, slots, l);
      && after.jobs == s.jobs[l.handler.job := Job(after.jobs[l.handler.job].status, job.attempts, job.maxAttempts,
                                                   job.claimedAt, job.crawl)]
      && (l.Finish? ==> after.jobs[l.handler.job].status == Complete)
      && (l.Reject? ==> after.jobs[l.handler.job].status == Failed)
      && (l.GiveUp? ==> (after.jobs[l.handler.job].status == if l.handler.attempt < job.maxAttempts then Pending
                                                             else Failed))
      && after.claims == s.claims && (Live(after, l.handler) <==> l.Finish? && !l.told)
  {
  }

  /** A job its handler gives up is either failed with its attempts spent, or put back and claimable. */
  lemma PutBackIsClaimable(s: State, slots: nat, h: Handler)
    requires Inv(s, slots) && Faithful(s) && Enabled(s, slots, GiveUp(h))
    ensures var job := Apply(s, slots, GiveUp(h)).jobs[h.job];
            && (job.status == Failed <==> job.attempts == job.maxAttempts)
            && (job.status != Failed ==> Claimable(job))
  {
  }

  // ---- Exactly when the guarantees stop ----------------------------------------------------------

  /**
   * A step keeps handlers and jobs in step exactly when it is clean: recovery takes no job whose handler is alive, and
   * no handler is left thinking that a completion of its job failed. No other step can break it.
   */
  lemma StepIsSafeExactly(s: State, slots: nat, l: Label)
    requires Inv(s, slots) && Faithful(s) && Enabled(s, slots, l)
    ensures Faithful(Apply(s, slots, l)) <==> Clean(s, l)
  {
    if Clean(s, l) {
      CleanStepKeeps(s, slots, l);
    } else if l.Recover? {
      var h :| h in s.tasks && s.tasks[h].live && h.job < |s.jobs| && Stale(s.jobs[h.job], l.now);
      assert Apply(s, slots, l).jobs[h.job].status == Pending;
    } else {
      assert Apply(s, slots, l).jobs[l.handler.job].status == Complete;
    }
  }

  /** Recovery puts back exactly the overdue jobs, and one of them can be claimed again exactly with an attempt left. */
  lemma RecoveredIsClaimable(s: State, slots: nat, now: int, i: nat)
    requires Inv(s, slots) && i < |s.jobs|
    ensures PutBack(s.jobs[i], Apply(s, slots, Recover(now)).jobs[i], now)
    ensures Apply(s, slots, Recover(now)).jobs[i] != s.jobs[i] ==>
      (Claimable(Apply(s, slots, Recover(now)).jobs[i]) <==> s.jobs[i].attempts != s.jobs[i].maxAttempts)
  {
  }

  /** Pending with no attempt left and no handler: what recovery leaves of a job that died on its last attempt. */
  predicate Stranded(s: State, i: nat) {
    && i < |s.jobs| && s.jobs[i].status == Pending && s.jobs[i].attempts == s.jobs[i].maxAttempts
    && forall h :: h in s.tasks && s.tasks[h].live ==> h.job != i
  }

  lemma StrandedStays(s: State, slots: nat, l: Label, i: nat)
    requires Inv(s, slots) && Enabled(s, slots, l) && Stranded(s, i)
    ensures Stranded(Apply(s, slots, l), i) && Apply(s, slots, l).jobs[i] == s.jobs[i]
  {
    if l.Grant? { assert AllClaimable(s.jobs, s.claims[l.worker]); }
  }

  /** Such a job stays pending for ever, in every run. */
  lemma {:induction false} StrandedForGood(s: State, slots: nat, run: seq<Label>, i: nat)
    requires Inv(s, slots) && IsRun(s, slots, run) && Stranded(s, i)
    ensures Stranded(After(s, slots, run), i) && After(s, slots, run).jobs[i] == s.jobs[i]
    decreases |run|
  {
    if |run| == 0 {
    } else {
      StepKeeps(s, slots, run[0]);
      StrandedStays(s, slots, run[0], i);
      StrandedForGood(Apply(s, slots, run[0]), slots, run[1..], i);
    }
  }

  ghost predicate Leads(slots: nat, run: seq<Label>,
                        s: State) { IsRun(INITIAL, slots, run) && After(INITIAL, slots, run) == s }

  lemma {:induction false} RunExtends(s: State, slots: nat, run: seq<Label>, l: Label)
    requires IsRun(s, slots, run) && Enabled(After(s, slots, run), slots, l)
    ensures IsRun(s, slots, run + [l]) && After(s, slots, run + [l]) == Apply(After(s, slots, run), slots, l)
    decreases |run|
  {
    if |run| == 0 {
      assert run + [l] == [l];
      assert IsRun(Apply(s, slots, l), slots, [l][1..]);
    } else {
      assert (run + [l])[1..] == run[1..] + [l];
      RunExtends(Apply(s, slots, run[0]), slots, run[1..], l);
    }
  }

  lemma Step(slots: nat, run: seq<Label>, s: State, l: Label) returns (more: seq<Label>, next: State)
    requires Leads(slots, run, s) && Enabled(s, slots, l)
    ensures more == run + [l] && next == Apply(s, slots, l) && Leads(slots, more, next)
  {
    RunExtends(INITIAL, slots, run, l);
    more, next := run + [l], Apply(s, slots, l);
  }

  /** A worker with a free slot claims the only job there is. */
  lemma ClaimsOnlyJob(slots: nat, run: seq<Label>, s: State, w: nat, now: int) returns (more: seq<Label>, next: State)
    requires Leads(slots, run, s) && |s.jobs| == 1 && Claimable(s.jobs[0]) && s.claims == map[]
    requires slots >= 1 && ActiveTasks(s.tasks, w) == {}
    ensures more == run + [Lock(w, {0}), Grant(w, now, true)]
    ensures Leads(slots, more, next) && next.claims == map[] && next.jobs == [Claim(s.jobs[0], now)]
    ensures next.tasks == s.tasks[Handler(0, s.jobs[0].attempts + 1) := Task(w, true)]
  {
    var picked: set<nat> := {0};
    more, next := Step(slots, run, s, Lock(w, picked));
    assert Started(s.jobs, picked) == {Handler(0, s.jobs[0].attempts + 1)};
    more, next := Step(slots, more, next, Grant(w, now, true));
    assert next.claims == map[];
  }

  /**
   * A run in which recovery takes a job from a live handler: a second handler starts, the first completes the job, and
   * the second, failing late, makes the completed job claimable again.
   */
  lemma LateFailureReopens(slots: nat, crawl: bool) returns (run: seq<Label>, s: State, late: Handler)
    requires slots >= 1
    ensures Leads(slots, run, s) && |s.jobs| == 1 && s.jobs[0].status == Complete
    ensures s.jobs[0].crawl == crawl
    ensures late.job == 0 && Enabled(s, slots, GiveUp(late)) && Claimable(Apply(s, slots, GiveUp(late)).jobs[0])
  {
    run, s := [], INITIAL;
    var overdue := if crawl then 1801 else 601;
    run, s := Step(slots, run, s, Enqueue(3, crawl));
    run, s := ClaimsOnlyJob(slots, run, s, 0, 0);
    run, s := Step(slots, run, s, Recover(overdue));
    assert s.jobs == [Job(Pending, 1, 3, None, crawl)];
    run, s := ClaimsOnlyJob(slots, run, s, 1, overdue);
    run, s := Step(slots, run, s, Finish(Handler(0, 1), true));
    late := Handler(0, 2);
  }

  /**
   * A run without any recovery: the completion is committed but its handler is told otherwise, and the failure it then
   * reports makes the completed job claimable again.
   */
  lemma UntoldCompletionReopens(slots: nat) returns (run: seq<Label>, s: State, h: Handler)
    requires slots >= 1
    ensures Leads(slots, run, s)
    ensures (forall l :: l in run ==> !l.Recover?) && |s.jobs| == 1 && s.jobs[0].status == Complete
    ensures h.job == 0 && Enabled(s, slots, GiveUp(h)) && Claimable(Apply(s, slots, GiveUp(h)).jobs[0])
  {
    run, s := [], INITIAL;
    run, s := Step(slots, run, s, Enqueue(3, false));
    run, s := ClaimsOnlyJob(slots, run, s, 0, 0);
    h := Handler(0, 1);
    run, s := Step(slots, run, s, Finish(h, false));
  }

  /** A run that strands a job: its worker crashes on the last attempt, and recovery puts it back with none left. */
  lemma DeadJobIsStranded(slots: nat, crawl: bool) returns (run: seq<Label>, s: State)
    requires slots >= 1
    ensures Leads(slots, run, s) && Stranded(s, 0) && s.jobs[0].crawl == crawl
  {
    run, s := [], INITIAL;
    run, s := Step(slots, run, s, Enqueue(1, crawl));
    run, s := ClaimsOnlyJob(slots, run, s, 0, 0);
    run, s := Step(slots, run, s, Crash(0));
    run, s := Step(slots, run, s, Recover(if crawl then 1801 else 601));
  }
}
