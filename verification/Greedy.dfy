/**
 * Greedy packing of a sequence into runs. A run opens with a seed and takes items as long as the policy lets them
 * join; the item that does not join opens the next run, whose seed the policy derives from the run it closes.
 */
module Greedy {

  datatype Run<S, T> = Run(seed: S, items: seq<T>)

  datatype Policy<!S, !T> = Policy(joins: (S, seq<T>, T) -> bool, next: (Run<S, T>, T) -> S)

  // ---- Greedy packing, declaratively ---------------------------------------

  /** Item k joins the items before it. */
  predicate JoinsAt<S, T>(p: Policy<S, T>, seed: S, items: seq<T>, k: nat)
    requires k < |items|
  {
    p.joins(seed, items[..k], items[k])
  }

  predicate Grown<S, T>(p: Policy<S, T>, r: Run<S, T>) {
    r.items != [] && forall k :: 1 <= k < |r.items| ==> JoinsAt(p, r.seed, r.items, k)
  }

  /**
   * r is closed exactly because the item that opens `after` does not join it, and the seed of `after` derives from r.
   */
  predicate Follows<S(==), T>(p: Policy<S, T>, r: Run<S, T>, after: Run<S, T>) {
    && after.items != []
    && !p.joins(r.seed, r.items, after.items[0])
    && after.seed == p.next(r, after.items[0])
  }

  predicate IsPacking<S(==), T>(p: Policy<S, T>, seed: S, runs: seq<Run<S, T>>) {
    && (runs != [] ==> runs[0].seed == seed)
    && (forall i :: 0 <= i < |runs| ==> Grown(p, runs[i]))
    && (forall i :: 0 < i < |runs| ==> LinkedAt(p, runs, i))
  }

  predicate LinkedAt<S(==), T>(p: Policy<S, T>, runs: seq<Run<S, T>>, i: nat)
    requires 0 < i < |runs|
  {
    Follows(p, runs[i - 1], runs[i])
  }

  function AllItems<S, T>(runs: seq<Run<S, T>>): seq<T> {
    if |runs| == 0 then [] else runs[0].items + AllItems(runs[1..])
  }

  // ---- The packing as a function --------------------------------------------

  /** How many of the items the first run takes, given that it takes the first k. */
  function RunLength<S, T>(p: Policy<S, T>, seed: S, items: seq<T>, k: nat): (m: nat)
    requires k <= |items|
    ensures k <= m <= |items|
    ensures m < |items| ==> !JoinsAt(p, seed, items, m)
    ensures forall j :: k <= j < m ==> JoinsAt(p, seed, items, j)
    decreases |items| - k
  {
    if k < |items| && JoinsAt(p, seed, items, k) then RunLength(p, seed, items, k + 1) else k
  }

  function Pack<S, T>(p: Policy<S, T>, seed: S, items: seq<T>): (runs: seq<Run<S, T>>)
    decreases |items|
  {
    if |items| == 0 then [] else
      var k := RunLength(p, seed, items, 1);
      var r := Run(seed, items[..k]);
      [r] + if k == |items| then [] else Pack(p, p.next(r, items[k]), items[k..])
  }

  lemma {:induction false} RunLengthIs<S, T>(p: Policy<S, T>, seed: S, items: seq<T>, k: nat, m: nat)
    requires k <= m <= |items|
    requires forall j :: k <= j < m ==> JoinsAt(p, seed, items, j)
    requires m < |items| ==> !JoinsAt(p, seed, items, m)
    ensures RunLength(p, seed, items, k) == m
    decreases m - k
  {
    if k == m {
    } else {
      RunLengthIs(p, seed, items, k + 1, m);
    }
  }

  /** Joining depends on nothing behind the item. */
  lemma SamePrefix<S, T>(p: Policy<S, T>, seed: S, a: seq<T>, b: seq<T>, j: nat)
    requires j < |a| && j < |b| && a[..j + 1] == b[..j + 1]
    ensures JoinsAt(p, seed, a, j) == JoinsAt(p, seed, b, j)
  {
    assert a[..j] == a[..j + 1][..j] == b[..j + 1][..j] == b[..j];
    assert a[j] == a[..j + 1][j] == b[..j + 1][j] == b[j];
  }

  /** The items of a grown run join in any sequence that begins with them. */
  lemma StillJoin<S, T>(p: Policy<S, T>, r: Run<S, T>, items: seq<T>, k: nat)
    requires k <= |items| && k <= |r.items| && items[..k] == r.items[..k] && Grown(p, r)
    ensures forall j :: 1 <= j < k ==> JoinsAt(p, r.seed, items, j)
  {
    forall j | 1 <= j < k ensures JoinsAt(p, r.seed, items, j) {
      assert items[..j + 1] == items[..k][..j + 1] == r.items[..k][..j + 1] == r.items[..j + 1];
      SamePrefix(p, r.seed, items, r.items, j);
    }
  }

  lemma FirstRun<S, T>(p: Policy<S, T>, seed: S, items: seq<T>)
    requires items != []
    ensures Grown(p, Run(seed, items[..RunLength(p, seed, items, 1)]))
  {
    var k := RunLength(p, seed, items, 1);
    forall j | 1 <= j < k ensures JoinsAt(p, seed, items[..k], j) {
      assert items[..k][..j + 1] == items[..j + 1];
      SamePrefix(p, seed, items, items[..k], j);
    }
  }

  lemma Prepend<S, T>(p: Policy<S, T>, r: Run<S, T>, seed: S, rest: seq<Run<S, T>>)
    requires Grown(p, r) && IsPacking(p, seed, rest)
    requires rest != [] ==> Follows(p, r, rest[0])
    ensures IsPacking(p, r.seed, [r] + rest)
    ensures AllItems([r] + rest) == r.items + AllItems(rest)
  {
    var all := [r] + rest;
    assert all[1..] == rest;
    forall i: nat | 0 < i < |all| ensures LinkedAt(p, all, i) {
      if i > 1 { assert LinkedAt(p, rest, i - 1); }
    }
  }

  /** Packing is greedy and loses, adds and reorders nothing. */
  lemma {:induction false} PackIsPacking<S, T>(p: Policy<S, T>, seed: S, items: seq<T>)
    ensures IsPacking(p, seed, Pack(p, seed, items))
    ensures AllItems(Pack(p, seed, items)) == items
    decreases |items|
  {
    if items == [] {
    } else {
      var k := RunLength(p, seed, items, 1);
      var r := Run(seed, items[..k]);
      FirstRun(p, seed, items);
      if k < |items| {
        PackIsPacking(p, p.next(r, items[k]), items[k..]);
        PackNext(p, items, k, r, Pack(p, p.next(r, items[k]), items[k..]));
      } else {
        assert AllItems<S, T>([]) == [];
        Prepend(p, r, seed, []);
        assert [r] + [] == [r] && items[..k] == items;
      }
    }
  }

  lemma PackNext<S, T>(p: Policy<S, T>, items: seq<T>, k: nat, r: Run<S, T>, rest: seq<Run<S, T>>)
    requires 0 < k < |items| && r.items == items[..k] && Grown(p, r) && !JoinsAt(p, r.seed, items, k)
    requires IsPacking(p, p.next(r, items[k]), rest) && AllItems(rest) == items[k..]
    ensures IsPacking(p, r.seed, [r] + rest) && AllItems([r] + rest) == items
  {
    assert rest != [] && rest[0].items[0] == AllItems(rest)[0] == items[k];
    Prepend(p, r, p.next(r, items[k]), rest);
    assert items[..k] + items[k..] == items;
  }

  lemma RestIsPacking<S, T>(p: Policy<S, T>, seed: S, runs: seq<Run<S, T>>)
    requires IsPacking(p, seed, runs) && |runs| > 1
    ensures Follows(p, runs[0], runs[1]) && IsPacking(p, runs[1].seed, runs[1..])
  {
    var rest := runs[1..];
    assert LinkedAt(p, runs, 1);
    forall i: nat | 0 < i < |rest| ensures LinkedAt(p, rest, i) { assert LinkedAt(p, runs, i + 1); }
  }

  /** A grown run in front of a packing that follows it is what Pack makes of all the items. */
  lemma FirstIsPacked<S, T>(p: Policy<S, T>, r: Run<S, T>, rest: seq<Run<S, T>>, behind: seq<T>)
    requires Grown(p, r) && behind == AllItems(rest)
    requires rest != [] ==> Follows(p, r, rest[0]) && rest == Pack(p, rest[0].seed, behind)
    ensures [r] + rest == Pack(p, r.seed, r.items + behind)
  {
    var items, k := r.items + behind, |r.items|;
    assert items[..k] == r.items == r.items[..k] && items[k..] == behind;
    StillJoin(p, r, items, k);
    if rest != [] { assert items[k] == rest[0].items[0]; }
    RunLengthIs(p, r.seed, items, 1, k);
  }

  /** Any greedy packing of the items is the one Pack produces. */
  lemma {:induction false} PackingUnique<S, T>(p: Policy<S, T>, seed: S, runs: seq<Run<S, T>>)
    requires IsPacking(p, seed, runs)
    ensures runs == Pack(p, seed, AllItems(runs))
    decreases |runs|
  {
    if runs == [] {
    } else {
      var rest := runs[1..];
      if rest != [] {
        RestIsPacking(p, seed, runs);
        PackingUnique(p, rest[0].seed, rest);
      }
      FirstIsPacked(p, runs[0], rest, AllItems(rest));
      assert runs == [runs[0]] + rest;
    }
  }

  // ---- Packing one item at a time ---------------------------------------------

  lemma ClosesRun<S, T>(p: Policy<S, T>, seed: S, current: seq<T>, b: T, rest: seq<T>)
    requires Grown(p, Run(seed, current)) && !p.joins(seed, current, b)
    ensures Pack(p, seed, current + ([b] + rest)) ==
      [Run(seed, current)] + Pack(p, p.next(Run(seed, current), b), [b] + rest)
  {
    var all, k := current + ([b] + rest), |current|;
    assert all[..k] == current == current[..k] && all[k] == b && all[k..] == [b] + rest;
    StillJoin(p, Run(seed, current), all, k);
    RunLengthIs(p, seed, all, 1, k);
  }

  lemma LastRun<S, T>(p: Policy<S, T>, seed: S, current: seq<T>)
    requires Grown(p, Run(seed, current))
    ensures Pack(p, seed, current) == [Run(seed, current)]
  {
    assert current[..|current|] == current;
    RunLengthIs(p, seed, current, 1, |current|);
  }

  lemma GrowsBy<S, T>(p: Policy<S, T>, seed: S, current: seq<T>, b: T)
    requires current != [] ==> Grown(p, Run(seed, current)) && p.joins(seed, current, b)
    ensures Grown(p, Run(seed, current + [b]))
  {
    var more := current + [b];
    assert more[..|current|] == current == current[..|current|];
    if current != [] {
      StillJoin(p, Run(seed, current), more, |current|);
      assert JoinsAt(p, seed, more, |current|);
    }
  }
}
