/**
 * Monthly budgets: a request checks the recorded cost, generates, and records its own cost afterwards. Checks and
 * records of concurrent requests interleave, and months turn in between. Costs are exact rationals in dollars.
 */
module Budget {
  import opened Basics

  /** Dollars per million tokens. */
  datatype Price = Price(input: real, output: real)

  function EstimateCost(price: Price, input: nat, output: nat): real {
    (input as real * price.input + output as real * price.output) / 1000000.0
  }

  const PLATFORM_CAP: real := 10.0

  /** What a model may spend: its own limit, at most the cap unless it brings its own key. */
  datatype Plan = Plan(limit: real, ownKey: bool, price: Price)

  function LimitOf(plan: Plan): real {
    if !plan.ownKey && PLATFORM_CAP < plan.limit then PLATFORM_CAP else plan.limit
  }

  datatype Usage = Usage(input: nat, output: nat, cost: real)

  type Account = (int, nat)

  /** The recorded usage by model and month. */
  type Rows = map<Account, Usage>

  function Charged(rows: Rows, account: Account, price: Price, input: nat, output: nat): Rows {
    var before := if account in rows then rows[account] else Usage(0, 0, 0.0);
    var cost := before.cost + EstimateCost(price, input, output);
    rows[account := Usage(before.input + input, before.output + output, cost)]
  }

  predicate WithinBudget(rows: Rows, account: Account, plan: Plan) {
    account in rows ==> rows[account].cost < LimitOf(plan)
  }

  class Ledger {
    var rows: Rows

    constructor ()
      ensures rows == map[]
    {
      rows := map[];
    }

    method CheckBudget(model: int, month: nat, plan: Plan) returns (ok: bool)
      ensures ok == WithinBudget(rows, (model, month), plan)
      ensures ok <==> ((model, month) in rows ==>
        rows[(model, month)].cost < plan.limit && (plan.ownKey || rows[(model, month)].cost < 10.0))
    {
      if (model, month) !in rows { return true; }
      var limit := plan.limit;
      if !plan.ownKey && PLATFORM_CAP < limit { limit := PLATFORM_CAP; }
      ok := rows[(model, month)].cost < limit;
    }

    /** Inserts the month's row, or adds to it. */
    method RecordUsage(model: int, month: nat, price: Price, input: nat, output: nat) returns (usage: Usage)
      modifies this
      ensures rows == Charged(old(rows), (model, month), price, input, output)
      ensures rows == old(rows)[(model, month) := usage]
      ensures var before := if (model, month) in old(rows) then old(rows)[(model, month)] else Usage(0, 0, 0.0);
        && usage.input == before.input + input && usage.output == before.output + output
        && usage.cost - before.cost == (input as real * price.input + output as real * price.output) / 1000000.0
    {
      var cost := EstimateCost(price, input, output);
      if (model, month) in rows {
        var row := rows[(model, month)];
        row := row.(input := row.input + input, output := row.output + output, cost := row.cost + cost);
        rows := rows[(model, month) := row];
      } else {
        rows := rows[(model, month) := Usage(input, output, 0.0 + cost)];
      }
      usage := rows[(model, month)];
    }
  }

  // ---- Concurrent requests --------------------------------------------------------------

  /** What a request has written but not committed, under the month of its statement. */
  datatype Pending = Pending(month: nat, input: nat, output: nat)

  /** A request that passed the check and has not committed its record. */
  datatype Request = Request(model: int, pending: Option<Pending>)

  /** One committed record. */
  datatype Entry = Entry(model: int, month: nat, input: nat, output: nat)

  datatype State = State(month: nat, rows: Rows, requests: map<nat, Request>, log: seq<Entry>)

  datatype Label =
    | Check(request: nat, model: int)
    | Record(request: nat, input: nat, output: nat)
    | Commit(request: nat)
    | Drop(request: nat)
    | Turn

  /** Each model's plan; fixed during a run. */
  type Plans = int -> Plan

  /** A request enters only through the check; one that fails the check, or fails later, records nothing. */
  predicate Enabled(plans: Plans, s: State, l: Label) {
    match l
    case Check(r, model) => r !in s.requests && WithinBudget(s.rows, (model, s.month), plans(model))
    case Record(r, _, _) => r in s.requests && s.requests[r].pending.None?
    case Commit(r) => r in s.requests && s.requests[r].pending.Some?
    case Drop(r) => r in s.requests
    case Turn => true
  }

  function Apply(plans: Plans, s: State, l: Label): State
    requires Enabled(plans, s, l)
  {
    match l
    case Check(r, model) => s.(requests := s.requests[r := Request(model, None)])
    case Record(r, input, output) =>
      s.(requests := s.requests[r := s.requests[r].(pending := Some(Pending(s.month, input, output)))])
    case Commit(r) =>
      var model, p := s.requests[r].model, s.requests[r].pending.value;
      s.(rows := Charged(s.rows, (model, p.month), plans(model).price, p.input, p.output), requests := s.requests - {r},
         log := s.log + [Entry(model, p.month, p.input, p.output)])
    case Drop(r) => s.(requests := s.requests - {r})
    case Turn => s.(month := s.month + 1)
  }

  predicate IsRun(plans: Plans, s: State, run: seq<Label>)
    decreases |run|
  {
    |run| == 0 || (Enabled(plans, s, run[0]) && IsRun(plans, Apply(plans, s, run[0]), run[1..]))
  }

  function After(plans: Plans, s: State, run: seq<Label>): State
    requires IsRun(plans, s, run)
    decreases |run|
  {
    if |run| == 0 then s else After(plans, Apply(plans, s, run[0]), run[1..])
  }

  function Initial(month: nat): State { State(month, map[], map[], []) }
}
