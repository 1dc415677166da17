/** How far concurrent requests can overshoot a budget, and that the month's row is the sum of what was recorded. */
module BudgetRuns {
  import opened Basics
  import opened Budget

  function UsageOf(rows: Rows, account: Account): Usage { if account in rows then rows[account] else Usage(0, 0, 0.0) }

  // ---- The month's row is what was recorded ------------------------------------------------

  function Logged(log: seq<Entry>, account: Account, price: Price): Usage {
    if |log| == 0 then Usage(0, 0, 0.0) else
      var before, e := Logged(log[..|log| - 1], account, price), log[|log| - 1];
      if (e.model, e.month) != account then before
      else Usage(before.input + e.input, before.output + e.output, before.cost + EstimateCost(price, e.input, e.output))
  }

  lemma StepLogs(plans: Plans, s: State, l: Label, account: Account)
    requires Enabled(plans, s, l) && UsageOf(s.rows, account) == Logged(s.log, account, plans(account.0).price)
    ensures UsageOf(Apply(plans, s, l).rows, account) == Logged(Apply(plans, s, l).log, account, plans(account.0).price)
  {
    var after := Apply(plans, s, l);
    if l.Commit? { assert after.log[..|after.log| - 1] == s.log; }
  }

  lemma {:induction false} RunLogs(plans: Plans, s: State, run: seq<Label>, account: Account)
    requires IsRun(plans, s, run) && UsageOf(s.rows, account) == Logged(s.log, account, plans(account.0).price)
    ensures UsageOf(After(plans, s, run).rows, account) ==
      Logged(After(plans, s, run).log, account, plans(account.0).price)
    decreases |run|
  {
    if |run| == 0 {
    } else {
      StepLogs(plans, s, run[0], account);
      RunLogs(plans, Apply(plans, s, run[0]), run[1..], account);
    }
  }

  lemma {:induction false} LoggedCost(log: seq<Entry>, account: Account, price: Price)
    ensures var u := Logged(log, account, price); u.cost == EstimateCost(price, u.input, u.output)
  {
    if |log| == 0 {
    } else {
      LoggedCost(log[..|log| - 1], account, price);
      var before, e := Logged(log[..|log| - 1], account, price), log[|log| - 1];
      CostsAdd(price, before.input, before.output, e.input, e.output);
    }
  }

  lemma CostsAdd(price: Price, a: nat, b: nat, c: nat, d: nat)
    ensures EstimateCost(price, a, b) + EstimateCost(price, c, d) == EstimateCost(price, a + c, b + d)
  {
    assert (a + c) as real * price.input == a as real * price.input + c as real * price.input;
    assert (b + d) as real * price.output == b as real * price.output + d as real * price.output;
  }

  /** In every interleaving a month's row sums the committed records of that month, and costs what its totals cost. */
  lemma RowsSumRecords(plans: Plans, start: nat, run: seq<Label>, account: Account)
    requires IsRun(plans, Initial(start), run)
    ensures var s := After(plans, Initial(start), run);
            var usage, price := UsageOf(s.rows, account), plans(account.0).price;
            usage == Logged(s.log, account, price)
            && usage.cost == (usage.input as real * price.input + usage.output as real * price.output) / 1000000.0
  {
    RunLogs(plans, Initial(start), run, account);
    LoggedCost(After(plans, Initial(start), run).log, account, plans(account.0).price);
  }

  // ---- The overshoot --------------------------------------------------------------------------

  function InFlight(s: State, model: int): set<nat> { set r | r in s.requests && s.requests[r].model == model }

  /**
   * The requests that can still add to a month: those that have written under it, and in the current month the others.
   */
  function MayCharge(s: State, account: Account): set<nat> {
    set r | r in s.requests && s.requests[r].model == account.0
            && (if s.requests[r].pending.Some? then s.requests[r].pending.value.month else s.month) == account.1
  }

  /** At most `k` of a model's requests between check and record, none of them costing more than `most`. */
  ghost predicate Modest(plans: Plans, s: State, l: Label, model: int, k: nat, most: real)
    requires Enabled(plans, s, l)
  {
    && |InFlight(Apply(plans, s, l), model)| <= k
    && (l.Record? && s.requests[l.request].model == model ==>
        EstimateCost(plans(model).price, l.input, l.output) <= most)
  }

  ghost predicate IsModestRun(plans: Plans, s: State, run: seq<Label>, model: int, k: nat, most: real)
    decreases |run|
  {
    |run| == 0 ||
    (Enabled(plans, s, run[0]) && Modest(plans, s, run[0], model, k, most)
     && IsModestRun(plans, Apply(plans, s, run[0]), run[1..], model, k, most))
  }

  function Floor(limit: real): real { if limit > 0.0 then limit else 0.0 }

  /** What is recorded, and what the requests that can still record may add, stays below the limit and k requests. */
  ghost predicate Bounded(plans: Plans, s: State, model: int, k: nat, most: real, month: nat) {
    UsageOf(s.rows, (model, month)).cost + |MayCharge(s, (model, month))| as real * most
      <= Floor(LimitOf(plans(model))) + k as real * most
  }

  ghost predicate Inv(plans: Plans, s: State, model: int, k: nat, most: real) {
    && (forall month: nat :: Bounded(plans, s, model, k, most, month))
    && (forall account :: account in s.rows ==> account.1 <= s.month)
    && (forall r :: r in s.requests && s.requests[r].pending.Some? ==> s.requests[r].pending.value.month <= s.month)
    && (forall r :: r in s.requests && s.requests[r].pending.Some? && s.requests[r].model == model ==>
          var usage := s.requests[r].pending.value;
          EstimateCost(plans(model).price, usage.input, usage.output) <= most)
    && |InFlight(s, model)| <= k
  }

  lemma Scaled(m: nat, n: nat, most: real)
    requires m <= n && most >= 0.0
    ensures m as real * most <= n as real * most
  {
  }

  lemma Summed(a: real, b: real, c: real, d: real)
    requires a <= b && c <= d
    ensures a + c <= b + d
  {
  }

  /** Fewer requests that may charge and no more recorded: still bounded. */
  lemma FewerCharge(plans: Plans, s: State, after: State, model: int, k: nat, most: real, month: nat)
    requires Bounded(plans, s, model, k, most, month) && most >= 0.0
    requires MayCharge(after, (model, month)) <= MayCharge(s, (model, month))
    requires UsageOf(after.rows, (model, month)).cost <= UsageOf(s.rows, (model, month)).cost
    ensures Bounded(plans, after, model, k, most, month)
  {
    var fewer, more := |MayCharge(after, (model, month))|, |MayCharge(s, (model, month))|;
    SubsetSize(MayCharge(after, (model, month)), MayCharge(s, (model, month)));
    Scaled(fewer, more, most);
    Summed(UsageOf(after.rows, (model, month)).cost, UsageOf(s.rows, (model, month)).cost, fewer as real * most,
      more as real * most);
  }

  /** A month whose recorded cost is within the limit is bounded by how many requests there are. */
  lemma WithinLimitIsBounded(plans: Plans, s: State, model: int, k: nat, most: real, month: nat)
    requires UsageOf(s.rows, (model, month)).cost <= Floor(LimitOf(plans(model)))
    requires most >= 0.0 && |InFlight(s, model)| <= k
    ensures Bounded(plans, s, model, k, most, month)
  {
    var n := |MayCharge(s, (model, month))|;
    SubsetSize(MayCharge(s, (model, month)), InFlight(s, model));
    Scaled(n, k, most);
    Summed(UsageOf(s.rows, (model, month)).cost, Floor(LimitOf(plans(model))), n as real * most, k as real * most);
  }

  lemma CommitIsBounded(plans: Plans, s: State, l: Label, model: int, k: nat, most: real, month: nat)
    requires Inv(plans, s, model, k, most) && most >= 0.0 && l.Commit? && Enabled(plans, s, l)
    ensures Bounded(plans, Apply(plans, s, l), model, k, most, month)
  {
    var after := Apply(plans, s, l);
    var request := s.requests[l.request];
    assert Bounded(plans, s, model, k, most, month);
    if request.model == model && request.pending.value.month == month {
      var before, now := MayCharge(s, (model, month)), MayCharge(after, (model, month));
      assert before == now + {l.request};
      Moved(UsageOf(s.rows, (model, month)).cost, UsageOf(after.rows, (model, month)).cost, |before|, |now|, most,
            Floor(LimitOf(plans(model))) + k as real * most);
    } else {
      FewerCharge(plans, s, after, model, k, most, month);
    }
  }

  /** A request's cost moves from what may be charged to what is recorded. */
  lemma Moved(recorded: real, more: real, before: nat, now: nat, most: real, bound: real)
    requires recorded + before as real * most <= bound && before == now + 1 && more <= recorded + most
    ensures more + now as real * most <= bound
  {
    OneMore(now, before, most);
  }

  lemma OneMore(n: nat, m: nat, most: real)
    requires m == n + 1
    ensures m as real * most == n as real * most + most
  {
  }

  lemma StepIsBounded(plans: Plans, s: State, l: Label, model: int, k: nat, most: real, month: nat)
    requires Inv(plans, s, model, k, most) && most >= 0.0 && Enabled(plans, s, l) && Modest(plans, s, l, model, k, most)
    ensures Bounded(plans, Apply(plans, s, l), model, k, most, month)
  {
    var after := Apply(plans, s, l);
    assert Bounded(plans, s, model, k, most, month);
    if l.Commit? {
      CommitIsBounded(plans, s, l, model, k, most, month);
    } else if l.Check? && l.model == model && month == s.month {
      WithinLimitIsBounded(plans, after, model, k, most, month);
    } else if l.Turn? && month == after.month {
      WithinLimitIsBounded(plans, after, model, k, most, month);
    } else {
      FewerCharge(plans, s, after, model, k, most, month);
    }
  }

  lemma StepKeeps(plans: Plans, s: State, l: Label, model: int, k: nat, most: real)
    requires Inv(plans, s, model, k, most) && most >= 0.0 && Enabled(plans, s, l) && Modest(plans, s, l, model, k, most)
    ensures Inv(plans, Apply(plans, s, l), model, k, most)
  {
    forall month: nat ensures Bounded(plans, Apply(plans, s, l), model, k, most, month) {
      StepIsBounded(plans, s, l, model, k, most, month);
    }
  }

  lemma {:induction false} RunKeeps(plans: Plans, s: State, run: seq<Label>, model: int, k: nat, most: real)
    requires Inv(plans, s, model, k, most) && most >= 0.0 && IsModestRun(plans, s, run, model, k, most)
    ensures IsRun(plans, s, run) && Inv(plans, After(plans, s, run), model, k, most)
    decreases |run|
  {
    if |run| == 0 {
    } else {
      StepKeeps(plans, s, run[0], model, k, most);
      RunKeeps(plans, Apply(plans, s, run[0]), run[1..], model, k, most);
    }
  }

  /**
   * The overshoot bound: with at most k requests between check and record and none costing more than c, no month's
   * recorded cost passes the plan's own limit by more than k * c, nor ten dollars unless the plan has its own key, in
   * any interleaving and across turns of the month.
   */
  lemma OvershootIsBounded(plans: Plans, start: nat, run: seq<Label>, model: int, k: nat, most: real, month: nat)
    requires most >= 0.0 && IsModestRun(plans, Initial(start), run, model, k, most)
    ensures IsRun(plans, Initial(start), run)
    ensures var cost := UsageOf(After(plans, Initial(start), run).rows, (model, month)).cost;
      && cost <= (if plans(model).limit > 0.0 then plans(model).limit else 0.0) + k as real * most
      && (plans(model).ownKey || cost <= 10.0 + k as real * most)
  {
    var s := Initial(start);
    assert InFlight(s, model) == {};
    forall m: nat ensures Bounded(plans, s, model, k, most, m) { WithinLimitIsBounded(plans, s, model, k, most, m); }
    RunKeeps(plans, s, run, model, k, most);
    var after := After(plans, s, run);
    assert Bounded(plans, after, model, k, most, month);
    Scaled(0, |MayCharge(after, (model, month))|, most);
  }

  // ---- The bound is reached -------------------------------------------------------------------

  ghost predicate Leads(plans: Plans, origin: State, run: seq<Label>, s: State, model: int, k: nat, most: real) {
    IsRun(plans, origin, run) && After(plans, origin, run) == s && IsModestRun(plans, origin, run, model, k, most)
  }

  lemma {:induction false} RunExtends(plans: Plans, origin: State, run: seq<Label>, s: State, l: Label, model: int,
                                      k: nat, most: real)
    requires Leads(plans, origin, run, s, model, k, most) && Enabled(plans, s, l) && Modest(plans, s, l, model, k, most)
    ensures Leads(plans, origin, run + [l], Apply(plans, s, l), model, k, most)
    decreases |run|
  {
    if |run| == 0 {
      assert run + [l] == [l];
      assert IsRun(plans, Apply(plans, s, l), [l][1..]) &&
        IsModestRun(plans, Apply(plans, s, l), [l][1..], model, k, most);
    } else {
      assert (run + [l])[1..] == run[1..] + [l];
      RunExtends(plans, Apply(plans, origin, run[0]), run[1..], s, l, model, k, most);
    }
  }

  function Waiting(model: int, n: nat): (requests: map<nat, Request>)
    ensures forall r: nat :: r in requests <==> r < n
    ensures forall r :: r in requests ==> requests[r] == Request(model, None)
  {
    if n == 0 then map[] else Waiting(model, n - 1)[n - 1 := Request(model, None)]
  }

  /** Requests 0..n-1 have all passed the check. */
  function Checked(origin: State, model: int, n: nat): State {
    origin.(requests := Waiting(model, n))
  }

  lemma {:induction false} WaitingCount(model: int, n: nat)
    ensures |Waiting(model, n).Keys| == n
  {
    if n == 0 {
    } else {
      WaitingCount(model, n - 1);
      assert Waiting(model, n).Keys == Waiting(model, n - 1).Keys + {n - 1};
    }
  }

  lemma CheckedInFlight(origin: State, model: int, n: nat)
    ensures |InFlight(Checked(origin, model, n), model)| == n
  {
    assert InFlight(Checked(origin, model, n), model) == Waiting(model, n).Keys;
    WaitingCount(model, n);
  }

  lemma {:induction false} CheckAll(plans: Plans, origin: State, model: int, n: nat, k: nat, most: real)
    returns (run: seq<Label>)
    requires n <= k && origin.requests == map[] && WithinBudget(origin.rows, (model, origin.month), plans(model))
    ensures Leads(plans, origin, run, Checked(origin, model, n), model, k, most)
    decreases n
  {
    if n == 0 {
      run := [];
      assert Checked(origin, model, 0) == origin;
    } else {
      var s := Checked(origin, model, n - 1);
      run := CheckAll(plans, origin, model, n - 1, k, most);
      assert Apply(plans, s, Check(n - 1, model)) == Checked(origin, model, n);
      CheckedInFlight(origin, model, n);
      RunExtends(plans, origin, run, s, Check(n - 1, model), model, k, most);
      run := run + [Check(n - 1, model)];
    }
  }

  /** The last of n checked requests records and commits, leaving n - 1 of them. */
  lemma RecordLast(plans: Plans, start: State, run: seq<Label>, origin: State, model: int, n: nat, k: nat, input: nat,
                   output: nat)
    returns (more: seq<Label>, after: State)
    requires 0 < n <= k
    requires Leads(plans, start, run, Checked(origin, model, n), model, k,
      EstimateCost(plans(model).price, input, output))
    ensures Leads(plans, start, more, Checked(after, model, n - 1), model, k,
      EstimateCost(plans(model).price, input, output))
    ensures after.month == origin.month && UsageOf(after.rows, (model, origin.month)).cost
            == UsageOf(origin.rows, (model, origin.month)).cost + EstimateCost(plans(model).price, input, output)
  {
    var most := EstimateCost(plans(model).price, input, output);
    var s := Checked(origin, model, n);
    var written := Apply(plans, s, Record(n - 1, input, output));
    CheckedInFlight(origin, model, n);
    assert InFlight(written, model) == InFlight(s, model);
    RunExtends(plans, start, run, s, Record(n - 1, input, output), model, k, most);
    var done := Apply(plans, written, Commit(n - 1));
    assert InFlight(done, model) == InFlight(s, model) - {n - 1};
    RunExtends(plans, start, run + [Record(n - 1, input, output)], written, Commit(n - 1), model, k, most);
    more := run + [Record(n - 1, input, output)] + [Commit(n - 1)];
    after := done.(requests := map[]);
    assert done.requests == Checked(after, model, n - 1).requests;
  }

  lemma {:induction false} RecordAll(plans: Plans, start: State, run: seq<Label>, origin: State, model: int, n: nat,
                                     k: nat, input: nat, output: nat)
    returns (all: seq<Label>, after: State)
    requires n <= k
    requires Leads(plans, start, run, Checked(origin, model, n), model, k,
      EstimateCost(plans(model).price, input, output))
    ensures Leads(plans, start, all, after, model, k, EstimateCost(plans(model).price, input, output))
    ensures UsageOf(after.rows, (model, origin.month)).cost
            == UsageOf(origin.rows, (model, origin.month)).cost +
              n as real * EstimateCost(plans(model).price, input, output)
    decreases n
  {
    if n == 0 {
      all, after := run, Checked(origin, model, 0);
    } else {
      var more, next := RecordLast(plans, start, run, origin, model, n, k, input, output);
      all, after := RecordAll(plans, start, more, next, model, n - 1, k, input, output);
      OneMore(n - 1, n, EstimateCost(plans(model).price, input, output));
    }
  }

  /** From any quiet state still within budget, k requests can each add their whole cost: the bound is not slack. */
  lemma OvershootIsReached(plans: Plans, origin: State, model: int, k: nat, input: nat, output: nat)
    returns (run: seq<Label>, after: State)
    requires origin.requests == map[] && WithinBudget(origin.rows, (model, origin.month), plans(model))
    ensures Leads(plans, origin, run, after, model, k, EstimateCost(plans(model).price, input, output))
    ensures UsageOf(after.rows, (model, origin.month)).cost
            == UsageOf(origin.rows, (model, origin.month)).cost +
              k as real * EstimateCost(plans(model).price, input, output)
  {
    var checks := CheckAll(plans, origin, model, k, k, EstimateCost(plans(model).price, input, output));
    run, after := RecordAll(plans, origin, checks, origin, model, k, k, input, output);
  }
}
