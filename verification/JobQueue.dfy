/**
 * The job table of the background worker. The class updates its rows as the worker's statements do; the functions
 * beside it say what each statement makes of the rows, and are what the worker protocol is built from.
 */
module JobQueue {
  import opened Basics

  datatype Status = Pending | Running | Complete | Failed

  /** A row of the job table; its index is its creation order. Times are in seconds. */
  datatype Job = Job(status: Status, attempts: nat, maxAttempts: nat, claimedAt: Option<int>, crawl: bool)

  const STALE_AFTER: int := 600
  const STALE_CRAWL_AFTER: int := 1800

  predicate Claimable(job: Job) { job.status == Pending && job.attempts < job.maxAttempts }

  function Claim(job: Job, now: int): Job {
    job.(status := Running, attempts := job.attempts + 1, claimedAt := Some(now))
  }

  function Fail(job: Job, attempts: nat, maxAttempts: nat): Job {
    job.(status := if attempts >= maxAttempts then Failed else Pending)
  }

  /** Running longer than its kind of job may. */
  predicate Stale(job: Job, now: int) {
    && job.status == Running && job.claimedAt.Some?
    && job.claimedAt.value < now - (if job.crawl then STALE_CRAWL_AFTER else STALE_AFTER)
  }

  function Recover(job: Job, now: int): Job {
    if Stale(job, now) then job.(status := Pending, claimedAt := None) else job
  }

  function ClaimAll(jobs: seq<Job>, picked: set<nat>, now: int): (after: seq<Job>)
    ensures |after| == |jobs|
  {
    seq(|jobs|, i requires 0 <= i < |jobs| => if i in picked then Claim(jobs[i], now) else jobs[i])
  }

  /** A running job is put back once it was claimed more than 30 minutes ago, or 10 if it is no crawl; no other is. */
  predicate PutBack(job: Job, after: Job, now: int) {
    if job.status == Running && job.claimedAt.Some?
       && now > job.claimedAt.value + 60 * (if job.crawl then 30 else 10)
    then after == Job(Pending, job.attempts, job.maxAttempts, None, job.crawl)
    else after == job
  }

  function RecoverAll(jobs: seq<Job>, now: int): (after: seq<Job>)
    ensures |after| == |jobs|
  {
    seq(|jobs|, i requires 0 <= i < |jobs| => Recover(jobs[i], now))
  }

  predicate Free(jobs: seq<Job>, locked: set<nat>, i: nat) { i < |jobs| && Claimable(jobs[i]) && i !in locked }

  /** What a claim locks: at most `limit` claimable rows nobody else has locked, and the oldest such rows. */
  predicate IsClaim(jobs: seq<Job>, locked: set<nat>, limit: nat, picked: seq<nat>) {
    && |picked| <= limit
    && (forall k :: 0 <= k < |picked| ==> Free(jobs, locked, picked[k]))
    && (forall k, m :: 0 <= k < m < |picked| ==> picked[k] < picked[m])
    && (forall i | 0 <= i < |jobs| && Free(jobs, locked, i) && i !in picked ::
          |picked| == limit && (limit > 0 ==> picked[limit - 1] < i))
  }

  /** The claim is determined: two selections that obey the rule are the same. */
  lemma ClaimIsDetermined(jobs: seq<Job>, locked: set<nat>, limit: nat, a: seq<nat>, b: seq<nat>)
    requires IsClaim(jobs, locked, limit, a) && IsClaim(jobs, locked, limit, b)
    ensures a == b
  {
    var k := SamePrefix(a, b);
    if k < |a| && k < |b| {
      NothingOlder(jobs, locked, limit, a, b, k);
      NothingOlder(jobs, locked, limit, b, a, k);
    } else {
      NothingLeft(jobs, locked, limit, a, b);
      NothingLeft(jobs, locked, limit, b, a);
    }
  }

  /** A claim that a longer list of free rows extends is full. */
  lemma NothingLeft(jobs: seq<Job>, locked: set<nat>, limit: nat, picked: seq<nat>, longer: seq<nat>)
    requires IsClaim(jobs, locked, limit, picked)
    requires forall k :: 0 <= k < |longer| ==> Free(jobs, locked, longer[k])
    requires forall k, m :: 0 <= k < m < |longer| ==> longer[k] < longer[m]
    requires forall k :: 0 <= k < |picked| && k < |longer| ==> picked[k] == longer[k]
    ensures |longer| <= |picked| || |picked| == limit
  {
    if |longer| > |picked| {
      assert Free(jobs, locked, longer[|picked|]) && longer[|picked|] !in picked;
    }
  }

  lemma SamePrefix(a: seq<nat>, b: seq<nat>) returns (k: nat)
    ensures k <= |a| && k <= |b| && forall m :: 0 <= m < k ==> a[m] == b[m]
    ensures k < |a| && k < |b| ==> a[k] != b[k]
  {
    k := 0;
    while k < |a| && k < |b| && a[k] == b[k]
      invariant k <= |a| && k <= |b| && forall m :: 0 <= m < k ==> a[m] == b[m]
    {
      k := k + 1;
    }
  }

  /** Where two claims first differ, neither row is older than the other. */
  lemma NothingOlder(jobs: seq<Job>, locked: set<nat>, limit: nat, a: seq<nat>, b: seq<nat>, k: nat)
    requires IsClaim(jobs, locked, limit, a) && IsClaim(jobs, locked, limit, b)
    requires k < |a| && k < |b| && forall m :: 0 <= m < k ==> a[m] == b[m]
    ensures b[k] <= a[k]
  {
    assert Free(jobs, locked, a[k]);
    if a[k] in b {
      var m :| 0 <= m < |b| && b[m] == a[k];
    } else {
      assert k == limit - 1 || b[k] < b[limit - 1];
    }
  }

  /** Row i is stamped if it is picked; else it stays, and if it was open the claim is full of older rows. */
  predicate TakesAt(jobs: seq<Job>, locked: set<nat>, limit: nat, picked: seq<nat>, after: seq<Job>, now: int, i: nat)
    requires i < |jobs| == |after|
  {
    var job := jobs[i];
    var open := i !in locked && job.status == Pending && job.attempts < job.maxAttempts;
    if i in picked then open && after[i] == Job(Running, job.attempts + 1, job.maxAttempts, Some(now), job.crawl)
    else after[i] == job && (open ==> |picked| == limit && forall k :: k in picked ==> k < i)
  }

  /** The claim takes the oldest pending rows that have an attempt left and are not locked, and changes no other. */
  predicate Takes(jobs: seq<Job>, locked: set<nat>, limit: nat, picked: seq<nat>, after: seq<Job>, now: int) {
    && |picked| <= limit && |after| == |jobs|
    && forall i: nat :: i < |jobs| ==> TakesAt(jobs, locked, limit, picked, after, now, i)
  }

  lemma ClaimTakes(jobs: seq<Job>, locked: set<nat>, limit: nat, picked: seq<nat>, now: int)
    requires IsClaim(jobs, locked, limit, picked)
    ensures Takes(jobs, locked, limit, picked, ClaimAll(jobs, Elements(picked), now), now)
  {
    var after := ClaimAll(jobs, Elements(picked), now);
    forall i: nat | i < |jobs| ensures TakesAt(jobs, locked, limit, picked, after, now, i) {
      if i in picked {
        assert Free(jobs, locked, i);
      } else if Free(jobs, locked, i) {
        forall k | k in picked ensures k < i {
          var m :| 0 <= m < |picked| && picked[m] == k;
          assert m == limit - 1 || picked[m] < picked[limit - 1];
        }
      }
    }
  }

  class JobTable {
    var jobs: seq<Job>

    constructor ()
      ensures jobs == []
    {
      jobs := [];
    }

    method Enqueue(maxAttempts: nat, crawl: bool) returns (id: nat)
      modifies this
      ensures id == |old(jobs)| && jobs == old(jobs) + [Job(Pending, 0, maxAttempts, None, crawl)]
    {
      id := |jobs|;
      jobs := jobs + [Job(Pending, 0, maxAttempts, None, crawl)];
    }

    /** Picks the oldest claimable rows that no other transaction has locked. */
    method Pick(limit: nat, locked: set<nat>) returns (picked: seq<nat>)
      ensures IsClaim(jobs, locked, limit, picked)
    {
      picked := [];
      var i: nat := 0;
      while i < |jobs| && |picked| < limit
        invariant i <= |jobs| && |picked| <= limit
        invariant forall k :: 0 <= k < |picked| ==> Free(jobs, locked, picked[k]) && picked[k] < i
        invariant forall k, m :: 0 <= k < m < |picked| ==> picked[k] < picked[m]
        invariant forall j: nat :: j < i && Free(jobs, locked, j) ==> j in picked
      {
        if jobs[i].status == Pending && jobs[i].attempts < jobs[i].maxAttempts && i !in locked {
          picked := picked + [i];
        }
        i := i + 1;
      }
    }

    method ClaimJobs(limit: nat, locked: set<nat>, now: int) returns (claimed: seq<nat>)
      modifies this
      ensures IsClaim(old(jobs), locked, limit, claimed)
      ensures jobs == ClaimAll(old(jobs), Elements(claimed), now)
      ensures Takes(old(jobs), locked, limit, claimed, jobs, now)
    {
      claimed := Pick(limit, locked);
      var k: nat := 0;
      while k < |claimed|
        invariant k <= |claimed|
        invariant jobs == ClaimAll(old(jobs), Elements(claimed[..k]), now)
      {
        var id := claimed[k];
        assert claimed[..k + 1] == claimed[..k] + [id] && id !in claimed[..k];
        jobs := jobs[id := jobs[id].(status := Running, attempts := jobs[id].attempts + 1, claimedAt := Some(now))];
        k := k + 1;
      }
      assert claimed[..k] == claimed;
      ClaimTakes(old(jobs), locked, limit, claimed, now);
    }

    method MarkComplete(id: nat)
      modifies this
      ensures jobs == if id < |old(jobs)| then old(jobs)[id := old(jobs)[id].(status := Complete)] else old(jobs)
    {
      if id < |jobs| { jobs := jobs[id := jobs[id].(status := Complete)]; }
    }

    method MarkFailed(id: nat, attempts: nat, maxAttempts: nat)
      modifies this
      ensures jobs ==
        if id < |old(jobs)| then old(jobs)[id := Fail(old(jobs)[id], attempts, maxAttempts)] else old(jobs)
      ensures id < |jobs| ==>
        jobs[id] == old(jobs)[id].(status := if attempts < maxAttempts then Pending else Failed)
    {
      var status := if attempts >= maxAttempts then Failed else Pending;
      if id < |jobs| { jobs := jobs[id := jobs[id].(status := status)]; }
    }

    /** One of the two recovery statements: releases the running jobs of one kind claimed before the cutoff. */
    method Release(crawl: bool, cutoff: int)
      modifies this
      ensures |jobs| == |old(jobs)|
      ensures forall i :: 0 <= i < |jobs| ==> jobs[i] == Released(old(jobs)[i], crawl, cutoff)
    {
      var i: nat := 0;
      while i < |jobs|
        invariant i <= |jobs| == |old(jobs)|
        invariant forall k :: 0 <= k < i ==> jobs[k] == Released(old(jobs)[k], crawl, cutoff)
        invariant jobs[i..] == old(jobs)[i..]
      {
        assert jobs[i] == jobs[i..][0] == old(jobs)[i];
        if jobs[i].status == Running && jobs[i].crawl == crawl && jobs[i].claimedAt.Some? &&
          jobs[i].claimedAt.value < cutoff {
          jobs := jobs[i := jobs[i].(status := Pending, claimedAt := None)];
        }
        i := i + 1;
      }
    }

    /** Puts back crawls claimed over half an hour ago and other jobs claimed over ten minutes ago, if still running. */
    method RecoverStaleJobs(now: int)
      modifies this
      ensures jobs == RecoverAll(old(jobs), now) && |jobs| == |old(jobs)|
      ensures forall i :: 0 <= i < |jobs| ==> PutBack(old(jobs)[i], jobs[i], now)
    {
      Release(false, now - STALE_AFTER);
      Release(true, now - STALE_CRAWL_AFTER);
    }
  }

  function Elements(s: seq<nat>): set<nat> { set x | x in s }

  function Released(job: Job, crawl: bool, cutoff: int): Job {
    if job.status == Running && job.crawl == crawl && job.claimedAt.Some? && job.claimedAt.value < cutoff
    then job.(status := Pending, claimedAt := None) else job
  }
}
