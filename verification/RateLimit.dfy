/**
 * The sliding-window rate limiter. Its store prunes a key when it is asked about and evicts idle keys when there are
 * too many; it must answer like a limiter that remembers every allowed request for ever.
 */
module RateLimit {

  datatype Limits = Limits(max: int, window: real, maxKeys: int)

  /** Callers are told apart and nothing else. */
  type Key(==, !new)

  type Store = map<Key, seq<real>>

  /** The times after a cutoff, in order. */
  function Recent(times: seq<real>, cutoff: real): seq<real> {
    if |times| == 0 then [] else
      Recent(times[..|times| - 1], cutoff) + (if times[|times| - 1] > cutoff then [times[|times| - 1]] else [])
  }

  function Times(store: Store, key: Key): seq<real> { if key in store then store[key] else [] }

  predicate Idle(times: seq<real>, cutoff: real) { |times| == 0 || times[|times| - 1] <= cutoff }

  /** The store without some keys. */
  function Without(store: Store, gone: set<Key>): Store { map key | key in store && key !in gone :: store[key] }

  function Pruned(store: Store, key: Key, cutoff: real): Store {
    if Recent(Times(store, key), cutoff) == [] then Without(store, {key}) else store
  }

  function Stale(store: Store, cutoff: real): set<Key> { set key | key in store && Idle(store[key], cutoff) }

  function Evicted(store: Store, maxKeys: int, cutoff: real): Store {
    if |store| > maxKeys then Without(store, Stale(store, cutoff)) else store
  }

  /** The answer to one call. */
  predicate Allows(limits: Limits, times: seq<real>, now: real) { |Recent(times, now - limits.window)| < limits.max }

  /** The store after one call. */
  function Next(limits: Limits, store: Store, key: Key, now: real): Store {
    var cutoff := now - limits.window;
    var kept := Evicted(Pruned(store, key, cutoff), limits.maxKeys, cutoff);
    if Allows(limits, Times(store, key), now) then kept[key := Recent(Times(store, key), cutoff) + [now]] else kept
  }

  class RateLimiter {
    const limits: Limits
    var requests: Store

    constructor (max: int, window: real, maxKeys: int)
      ensures limits == Limits(max, window, maxKeys) && requests == map[]
    {
      limits, requests := Limits(max, window, maxKeys), map[];
    }

    /** Drops the keys that have no request in the window. */
    method Evict(cutoff: real)
      modifies this`requests
      ensures requests == Without(old(requests), Stale(old(requests), cutoff))
    {
      var stale := Stale(requests, cutoff);
      ghost var gone: set<Key> := {};
      while stale != {}
        invariant stale !! gone && stale + gone == Stale(old(requests), cutoff)
        invariant requests == Without(old(requests), gone)
        decreases |stale|
      {
        var key :| key in stale;
        requests, stale, gone := Without(requests, {key}), stale - {key}, gone + {key};
      }
    }

    method IsAllowed(key: Key, now: real) returns (allowed: bool)
      modifies this`requests
      ensures allowed == Allows(limits, Times(old(requests), key), now)
      ensures requests == Next(limits, old(requests), key, now)
    {
      var cutoff := now - limits.window;
      var recent := Recent(Times(requests, key), cutoff);
      if recent == [] { requests := Without(requests, {key}); }
      if |requests| > limits.maxKeys { Evict(cutoff); }
      if |recent| >= limits.max { return false; }
      requests := requests[key := recent + [now]];
      return true;
    }
  }

  // ---- The limiter that forgets nothing -------------------------------------------------

  datatype Call = Call(key: Key, now: real)

  /** The history of allowed calls after one more. */
  function Remember(limits: Limits, history: Store, call: Call): Store {
    if Allows(limits, Times(history, call.key), call.now)
    then history[call.key := Times(history, call.key) + [call.now]] else history
  }

  function Answers(limits: Limits, store: Store, calls: seq<Call>): seq<bool>
    decreases |calls|
  {
    if |calls| == 0 then [] else
      [Allows(limits, Times(store, calls[0].key), calls[0].now)]
      + Answers(limits, Next(limits, store, calls[0].key, calls[0].now), calls[1..])
  }

  function FullAnswers(limits: Limits, history: Store, calls: seq<Call>): seq<bool>
    decreases |calls|
  {
    if |calls| == 0 then [] else
      [Allows(limits, Times(history, calls[0].key), calls[0].now)] +
        FullAnswers(limits, Remember(limits, history, calls[0]), calls[1..])
  }

  function History(limits: Limits, history: Store, calls: seq<Call>): Store
    decreases |calls|
  {
    if |calls| == 0 then history else History(limits, Remember(limits, history, calls[0]), calls[1..])
  }

  /** The clock does not go back, and starts no earlier than `from`. */
  predicate Monotonic(calls: seq<Call>, from: real) {
    |calls| > 0 ==> from <= calls[0].now && Monotonic(calls[1..], calls[0].now)
  }

  /** The times rise, and none is after `until`. */
  predicate Ordered(times: seq<real>, until: real) {
    |times| > 0 ==> times[|times| - 1] <= until && Ordered(times[..|times| - 1], times[|times| - 1])
  }

  lemma {:induction false} RecentConcat(a: seq<real>, b: seq<real>, cutoff: real)
    ensures Recent(a + b, cutoff) == Recent(a, cutoff) + Recent(b, cutoff)
  {
    if |b| == 0 {
      assert a + b == a;
    } else {
      assert (a + b)[..|a + b| - 1] == a + b[..|b| - 1];
      RecentConcat(a, b[..|b| - 1], cutoff);
    }
  }

  lemma {:induction false} RecentTwice(times: seq<real>, early: real, late: real)
    requires early <= late
    ensures Recent(Recent(times, early), late) == Recent(times, late)
  {
    if |times| == 0 {
    } else {
      var n := |times| - 1;
      RecentTwice(times[..n], early, late);
      RecentConcat(Recent(times[..n], early), if times[n] > early then [times[n]] else [], late);
    }
  }

  lemma {:induction false} RecentOrdered(times: seq<real>, cutoff: real, until: real)
    requires Ordered(times, until)
    ensures Ordered(Recent(times, cutoff), until)
  {
    if |times| == 0 {
    } else {
      var n := |times| - 1;
      var kept := Recent(times[..n], cutoff);
      RecentOrdered(times[..n], cutoff, times[n]);
      if times[n] > cutoff {
        assert (kept + [times[n]])[..|kept|] == kept;
      } else {
        assert Recent(times, cutoff) == kept;
      }
    }
  }

  lemma {:induction false} IdleHasNoRecent(times: seq<real>, cutoff: real, until: real)
    requires Ordered(times, until) && Idle(times, cutoff)
    ensures Recent(times, cutoff) == []
  {
    if |times| == 0 {
    } else {
      assert Idle(times[..|times| - 1], cutoff);
      IdleHasNoRecent(times[..|times| - 1], cutoff, times[|times| - 1]);
    }
  }

  /** What was forgotten of a key's times is out of every window that is still to come. */
  ghost predicate Forgets(kept: seq<real>, all: seq<real>, cutoff: real, now: real) {
    Ordered(kept, now) && Ordered(all, now) && Recent(kept, cutoff) == Recent(all, cutoff)
  }

  ghost predicate Represents(limits: Limits, store: Store, history: Store, now: real) {
    forall key :: Forgets(Times(store, key), Times(history, key), now - limits.window, now)
  }

  /** As time passes, both still agree. */
  lemma LaterWindow(kept: seq<real>, all: seq<real>, early: real, before: real, cutoff: real, now: real)
    requires Forgets(kept, all, early, before) && early <= cutoff && before <= now
    ensures Forgets(kept, all, cutoff, now)
  {
    RecentTwice(kept, early, cutoff);
    RecentTwice(all, early, cutoff);
  }

  lemma PruningForgets(kept: seq<real>, all: seq<real>, cutoff: real, now: real)
    requires Forgets(kept, all, cutoff, now)
    ensures Forgets(Recent(kept, cutoff), all, cutoff, now)
  {
    RecentTwice(kept, cutoff, cutoff);
    RecentOrdered(kept, cutoff, now);
  }

  lemma EvictionForgets(kept: seq<real>, all: seq<real>, cutoff: real, now: real)
    requires Forgets(kept, all, cutoff, now) && (Recent(kept, cutoff) == [] || Idle(kept, cutoff))
    ensures Forgets([], all, cutoff, now)
  {
    if Idle(kept, cutoff) { IdleHasNoRecent(kept, cutoff, now); }
  }

  lemma RecordingForgets(kept: seq<real>, all: seq<real>, cutoff: real, now: real)
    requires Forgets(kept, all, cutoff, now)
    ensures Forgets(kept + [now], all + [now], cutoff, now)
  {
    RecentConcat(kept, [now], cutoff);
    RecentConcat(all, [now], cutoff);
  }

  /**
   * What a call leaves of a key's times: all of them, none if they are out of the window, or the recent ones and now.
   */
  predicate Follows(times: seq<real>, next: seq<real>, cutoff: real, now: real, recorded: bool) {
    if recorded then next == Recent(times, cutoff) + [now]
    else next == times || (next == [] && (Recent(times, cutoff) == [] || Idle(times, cutoff)))
  }

  predicate Records(limits: Limits, store: Store, call: Call, key: Key) {
    key == call.key && Allows(limits, Times(store, key), call.now)
  }

  lemma NextFollows(limits: Limits, store: Store, call: Call, key: Key)
    ensures Follows(Times(store, key), Times(Next(limits, store, call.key, call.now), key), call.now - limits.window,
                    call.now, Records(limits, store, call, key))
  {
    var cutoff := call.now - limits.window;
    var pruned := Pruned(store, call.key, cutoff);
    if !Records(limits, store, call, key) {
      PrunedTimes(store, call.key, cutoff, key);
      EvictedTimes(pruned, limits.maxKeys, cutoff, key);
      OutOfWindow(Times(store, key), Times(pruned, key), Times(Evicted(pruned, limits.maxKeys, cutoff), key), cutoff,
                  call.now);
    }
  }

  lemma OutOfWindow(times: seq<real>, pruned: seq<real>, evicted: seq<real>, cutoff: real, now: real)
    requires pruned == times || (pruned == [] && Recent(times, cutoff) == [])
    requires evicted == pruned || (evicted == [] && Idle(pruned, cutoff))
    ensures Follows(times, evicted, cutoff, now, false)
  {
  }

  lemma PrunedTimes(store: Store, pruned: Key, cutoff: real, key: Key)
    ensures Times(Pruned(store, pruned, cutoff), key) == Times(store, key)
            || (Times(Pruned(store, pruned, cutoff), key) == [] && Recent(Times(store, key), cutoff) == [])
  {
  }

  lemma EvictedTimes(store: Store, maxKeys: int, cutoff: real, key: Key)
    ensures Times(Evicted(store, maxKeys, cutoff), key) == Times(store, key)
            || (Times(Evicted(store, maxKeys, cutoff), key) == [] && Idle(Times(store, key), cutoff))
  {
  }

  lemma FollowedForgets(kept: seq<real>, all: seq<real>, next: seq<real>, cutoff: real, now: real, recorded: bool)
    requires Forgets(kept, all, cutoff, now) && Follows(kept, next, cutoff, now, recorded)
    ensures Forgets(next, if recorded then all + [now] else all, cutoff, now)
  {
    if recorded {
      PruningForgets(kept, all, cutoff, now);
      RecordingForgets(Recent(kept, cutoff), all, cutoff, now);
    } else if next != kept {
      EvictionForgets(kept, all, cutoff, now);
    }
  }

  /** The answer for a key is the same, and what follows still represents what is remembered. */
  lemma KeyInStep(limits: Limits, store: Store, history: Store, before: real, call: Call, key: Key, next: seq<real>,
                  remembered: seq<real>)
    requires Forgets(Times(store, key), Times(history, key), before - limits.window, before) && before <= call.now
    requires Follows(Times(store, key), next, call.now - limits.window, call.now, Records(limits, store, call, key))
    requires remembered ==
      if Records(limits, history, call, key) then Times(history, key) + [call.now] else Times(history, key)
    ensures Allows(limits, Times(store, key), call.now) == Allows(limits, Times(history, key), call.now)
    ensures Forgets(next, remembered, call.now - limits.window, call.now)
  {
    var kept, all, cutoff := Times(store, key), Times(history, key), call.now - limits.window;
    LaterWindow(kept, all, before - limits.window, before, cutoff, call.now);
    FollowedForgets(kept, all, next, cutoff, call.now, Records(limits, store, call, key));
  }

  /** One call gives the same answer from the store as from the full history, and keeps them in step. */
  lemma CallAgrees(limits: Limits, store: Store, history: Store, before: real, call: Call)
    requires Represents(limits, store, history, before) && before <= call.now
    ensures Allows(limits, Times(store, call.key), call.now) == Allows(limits, Times(history, call.key), call.now)
    ensures Represents(limits, Next(limits, store, call.key, call.now), Remember(limits, history, call), call.now)
  {
    forall key
      ensures Allows(limits, Times(store, key), call.now) == Allows(limits, Times(history, key), call.now)
      ensures Forgets(Times(Next(limits, store, call.key, call.now), key), Times(Remember(limits, history, call), key),
                      call.now - limits.window, call.now)
    {
      NextFollows(limits, store, call, key);
      KeyInStep(limits, store, history, before, call, key, Times(Next(limits, store, call.key, call.now), key),
                Times(Remember(limits, history, call), key));
    }
  }

  /** With a clock that never goes back, pruning and eviction never change an answer. */
  lemma {:induction false} AnswersAgree(limits: Limits, store: Store, history: Store, before: real, calls: seq<Call>)
    requires Represents(limits, store, history, before) && Monotonic(calls, before)
    ensures Answers(limits, store, calls) == FullAnswers(limits, history, calls)
    decreases |calls|
  {
    if |calls| == 0 {
    } else {
      CallAgrees(limits, store, history, before, calls[0]);
      AnswersAgree(limits, Next(limits, store, calls[0].key, calls[0].now), Remember(limits, history, calls[0]),
        calls[0].now, calls[1..]);
    }
  }

  lemma NewLimiterAnswers(limits: Limits, calls: seq<Call>)
    requires |calls| > 0 ==> Monotonic(calls, calls[0].now)
    ensures Answers(limits, map[], calls) == FullAnswers(limits, map[], calls)
  {
    if |calls| > 0 { AnswersAgree(limits, map[], map[], calls[0].now, calls); }
  }

  // ---- The promise ------------------------------------------------------------------------

  /** How many times lie in the window of the given length that ends at `end`, its start left out. */
  function InWindow(times: seq<real>, length: real, end: real): nat {
    if |times| == 0 then 0 else
      InWindow(times[..|times| - 1], length, end) + (if end - length < times[|times| - 1] <= end then 1 else 0)
  }

  lemma {:induction false} WindowIsRecent(times: seq<real>, length: real, end: real, now: real)
    requires now <= end
    ensures InWindow(times, length, end) <= |Recent(times, now - length)|
  {
    if |times| == 0 {
    } else {
      WindowIsRecent(times[..|times| - 1], length, end, now);
    }
  }

  ghost predicate Limited(limits: Limits, times: seq<real>) {
    forall end: real :: InWindow(times, limits.window, end) <= if limits.max > 0 then limits.max else 0
  }

  lemma RememberKeepsLimit(limits: Limits, history: Store, before: real, call: Call, key: Key)
    requires Ordered(Times(history, key), before) && before <= call.now && Limited(limits, Times(history, key))
    ensures Ordered(Times(Remember(limits, history, call), key), call.now)
    ensures Limited(limits, Times(Remember(limits, history, call), key))
  {
    var times := Times(history, key);
    if key == call.key && Allows(limits, times, call.now) {
      var more := times + [call.now];
      assert more[..|more| - 1] == times;
      forall end: real ensures InWindow(more, limits.window, end) <= if limits.max > 0 then limits.max else 0 {
        assert InWindow(times, limits.window, end) <= if limits.max > 0 then limits.max else 0;
        if call.now <= end { WindowIsRecent(times, limits.window, end, call.now); }
      }
    }
  }

  /** No window of the configured length, wherever it ends, ever holds more allowed calls of a key than the maximum. */
  lemma {:induction false} WindowsAreLimited(limits: Limits, history: Store, before: real, calls: seq<Call>, key: Key)
    requires Monotonic(calls, before) && Ordered(Times(history, key), before) && Limited(limits, Times(history, key))
    ensures Limited(limits, Times(History(limits, history, calls), key))
    decreases |calls|
  {
    if |calls| == 0 {
    } else {
      RememberKeepsLimit(limits, history, before, calls[0], key);
      WindowsAreLimited(limits, Remember(limits, history, calls[0]), calls[0].now, calls[1..], key);
    }
  }

  /** The times at which calls for a key were answered yes. */
  function YesTimes(calls: seq<Call>, answers: seq<bool>, key: Key): seq<real>
    requires |calls| == |answers|
  {
    if |calls| == 0 then [] else
      (if calls[0].key == key && answers[0] then [calls[0].now] else []) + YesTimes(calls[1..], answers[1..], key)
  }

  lemma {:induction false} HistoryIsYesTimes(limits: Limits, history: Store, calls: seq<Call>, key: Key)
    ensures |FullAnswers(limits, history, calls)| == |calls|
    ensures Times(History(limits, history, calls), key) ==
      Times(history, key) + YesTimes(calls, FullAnswers(limits, history, calls), key)
    decreases |calls|
  {
    if |calls| == 0 {
    } else {
      var next := Remember(limits, history, calls[0]);
      HistoryIsYesTimes(limits, next, calls[1..], key);
      var answers := FullAnswers(limits, history, calls);
      assert answers[1..] == FullAnswers(limits, next, calls[1..]);
      var first := if calls[0].key == key && answers[0] then [calls[0].now] else [];
      RememberedTimes(limits, history, calls[0], key, first);
      Regrouped(Times(history, key), first, YesTimes(calls[1..], answers[1..], key));
    }
  }

  lemma RememberedTimes(limits: Limits, history: Store, call: Call, key: Key, first: seq<real>)
    requires first == if call.key == key && Allows(limits, Times(history, call.key), call.now) then [call.now] else []
    ensures Times(Remember(limits, history, call), key) == Times(history, key) + first
  {
  }

  lemma Regrouped(a: seq<real>, b: seq<real>, c: seq<real>)
    ensures (a + b) + c == a + (b + c)
  {
  }

  /** Among times that are not after the end of the window, the recent ones are those in it. */
  lemma {:induction false} RecentIsWindow(times: seq<real>, length: real, end: real, until: real)
    requires Ordered(times, until) && until <= end
    ensures |Recent(times, end - length)| == InWindow(times, length, end)
  {
    if |times| == 0 {
    } else {
      RecentIsWindow(times[..|times| - 1], length, end, times[|times| - 1]);
    }
  }

  lemma RememberedOrdered(limits: Limits, history: Store, before: real, call: Call, key: Key)
    requires Ordered(Times(history, key), before) && before <= call.now
    ensures Ordered(Times(Remember(limits, history, call), key), call.now)
  {
    var times := Times(history, key);
    assert (times + [call.now])[..|times|] == times;
  }

  lemma YesTimesHead(calls: seq<Call>, answers: seq<bool>, i: nat, key: Key)
    requires 0 < i <= |calls| == |answers|
    ensures YesTimes(calls[..i], answers[..i], key) ==
      (if calls[0].key == key && answers[0] then [calls[0].now] else [])
      + YesTimes(calls[1..][..i - 1], answers[1..][..i - 1], key)
  {
    assert calls[..i][1..] == calls[1..][..i - 1] && answers[..i][1..] == answers[1..][..i - 1];
  }

  /** The yes times before call i, counted from the start or from the second call, are the same. */
  lemma YesTimesShift(limits: Limits, history: Store, calls: seq<Call>, answers: seq<bool>, i: nat, key: Key)
    requires 0 < i <= |calls| == |answers| && answers == FullAnswers(limits, history, calls)
    ensures Times(history, key) + YesTimes(calls[..i], answers[..i], key) ==
      Times(Remember(limits, history, calls[0]), key) + YesTimes(calls[1..][..i - 1], answers[1..][..i - 1], key)
  {
    var first := if calls[0].key == key && answers[0] then [calls[0].now] else [];
    RememberedTimes(limits, history, calls[0], key, first);
    YesTimesHead(calls, answers, i, key);
    Regrouped(Times(history, key), first, YesTimes(calls[1..][..i - 1], answers[1..][..i - 1], key));
  }

  lemma FirstAnswerDecides(limits: Limits, times: seq<real>, before: real, now: real)
    requires Ordered(times, before) && before <= now
    ensures Allows(limits, times, now) <==> InWindow(times + [], limits.window, now) < limits.max
  {
    assert times + [] == times;
    RecentIsWindow(times, limits.window, now, before);
  }

  lemma {:induction false} FullAnswerDecides(limits: Limits, history: Store, before: real, calls: seq<Call>, i: nat,
                                             answers: seq<bool>, key: Key)
    requires i < |calls| == |answers| && answers == FullAnswers(limits, history, calls) && key == calls[i].key
    requires Monotonic(calls, before) && Ordered(Times(history, key), before)
    ensures answers[i] <==>
      InWindow(Times(history, key) + YesTimes(calls[..i], answers[..i], key), limits.window, calls[i].now) < limits.max
    decreases |calls|
  {
    if i == 0 {
      FirstAnswerDecides(limits, Times(history, key), before, calls[0].now);
    } else {
      var next := Remember(limits, history, calls[0]);
      assert answers[1..] == FullAnswers(limits, next, calls[1..]);
      RememberedOrdered(limits, history, before, calls[0], key);
      FullAnswerDecides(limits, next, calls[0].now, calls[1..], i - 1, answers[1..], key);
      YesTimesShift(limits, history, calls, answers, i, key);
    }
  }

  /**
   * Each answer, in plain terms: a call is allowed exactly if fewer than the maximum of the key's earlier calls that
   * were allowed lie in the window that ends now.
   */
  lemma AnswerDecides(limits: Limits, calls: seq<Call>, i: nat)
    requires i < |calls| && Monotonic(calls, calls[0].now)
    ensures |Answers(limits, map[], calls)| == |calls|
    ensures var answers := Answers(limits, map[], calls);
      answers[i] <==>
        InWindow(YesTimes(calls[..i], answers[..i], calls[i].key), limits.window, calls[i].now) < limits.max
  {
    var none: Store := map[];
    NewLimiterAnswers(limits, calls);
    HistoryIsYesTimes(limits, none, calls, calls[i].key);
    FullAnswerDecides(limits, none, calls[0].now, calls, i, FullAnswers(limits, none, calls), calls[i].key);
    var yes := YesTimes(calls[..i], FullAnswers(limits, none, calls)[..i], calls[i].key);
    assert Times(none, calls[i].key) + yes == yes;
  }

  /**
   * The store stays small: after a call it holds at most one key more than the limit on keys, or every key in it has a
   * request in the window.
   */
  lemma StoreStaysSmall(limits: Limits, store: Store, key: Key, now: real)
    requires limits.window > 0.0
    ensures var after := Next(limits, store, key, now);
      || |after| <= limits.maxKeys + 1
      || forall k :: k in after ==> |after[k]| > 0 && after[k][|after[k]| - 1] > now - limits.window
  {
    var cutoff := now - limits.window;
    var pruned := Pruned(store, key, cutoff);
    var kept := Evicted(pruned, limits.maxKeys, cutoff);
    if |pruned| <= limits.maxKeys {
      AddedKey(kept, key, Recent(Times(store, key), cutoff) + [now]);
    }
  }

  lemma AddedKey(store: Store, key: Key, times: seq<real>)
    ensures |store[key := times]| <= |store| + 1
  {
    if key !in store { assert store[key := times].Keys == store.Keys + {key}; }
    else { assert store[key := times].Keys == store.Keys; }
  }

  /**
   * The promise of the limiter, kept through every pruning and eviction: whatever the calls, no window of the
   * configured length holds more than the maximum of a key's calls that were allowed.
   */
  lemma NoWindowOverruns(limits: Limits, calls: seq<Call>, key: Key, end: real)
    requires |calls| > 0 ==> Monotonic(calls, calls[0].now)
    ensures |Answers(limits, map[], calls)| == |calls|
    ensures InWindow(YesTimes(calls, Answers(limits, map[], calls), key), limits.window, end) <=
      if limits.max > 0 then limits.max else 0
  {
    NewLimiterAnswers(limits, calls);
    HistoryIsYesTimes(limits, map[], calls, key);
    var none: Store := map[];
    var yes := YesTimes(calls, Answers(limits, none, calls), key);
    assert Times(none, key) + yes == yes;
    if |calls| > 0 { WindowsAreLimited(limits, none, calls[0].now, calls, key); }
  }
}
