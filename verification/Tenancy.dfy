/**
 * How the tenant of a request or job reaches the database: a context variable per task, scopes that set and restore it,
 * and a setting local to each transaction that row-level security reads.
 */
module Tenancy {
  import opened Basics

  type Tenant = Option<int>

  // ---- The two writers and the listener ---------------------------------------------------

  /** The context of one task; the variable holds the tenant it acts for. */
  class Context {
    var current: Tenant

    constructor ()
      ensures current == None
    {
      current := None;
    }
  }

  /** A database session; while a transaction is open it has the transaction's setting. */
  class Session {
    var open: bool
    var setting: Tenant

    constructor ()
      ensures !open && setting == None
    {
      open, setting := false, None;
    }

    /** The first statement opens a transaction and the listener publishes the tenant of its context, if it has one. */
    method Begin(context: Context)
      requires !open && setting == None
      modifies this
      ensures open && setting == Published(context.current, None)
    {
      open := true;
      if context.current.Some? { setting := context.current; }
    }

    /** Commit or rollback: the setting was local to the transaction. */
    method End()
      modifies this
      ensures !open && setting == None
    {
      open, setting := false, None;
    }

    method BindTenant(context: Context, model: int)
      requires !open ==> setting == None
      modifies this, context
      ensures context.current == Some(model) && open && setting == Some(model)
    {
      context.current := Some(model);
      if !open { Begin(context); }
      setting := Some(model);
    }
  }

  /** Enters a scope; what it returns restores the variable. */
  method EnterScope(context: Context, model: Tenant) returns (token: Tenant)
    modifies context
    ensures context.current == model && token == old(context.current)
  {
    token := context.current;
    context.current := model;
  }

  method ExitScope(context: Context, token: Tenant)
    modifies context
    ensures context.current == token
  {
    context.current := token;
  }

  /** The setting after the listener has run on a transaction. */
  function Published(current: Tenant, setting: Tenant): Tenant { if current.Some? then current else setting }

  /** Row-level security: a row is visible to the tenant that is set, and to none when none is. */
  predicate Visible(setting: Tenant, rowModel: int) { setting == Some(rowModel) }

  // ---- Any number of tasks, sessions and pooled connections -----------------------------------

  /** A scope being executed, or the base of a task (index 0), with what leaving it restores. */
  datatype Frame = Frame(id: nat, saved: Tenant)

  datatype Task = Task(current: Tenant, frames: seq<Frame>)

  /** A session belongs to the frame it was opened in, and holds a connection while a transaction is open. */
  datatype Use = Use(frame: nat, connection: Option<nat>)

  /** `tenants` says whom each frame acts for; `settings` is the value each pooled connection currently has. */
  datatype State = State(tasks: map<nat, Task>, sessions: map<nat, Use>, tenants: map<nat, Tenant>,
                         owners: map<nat, nat>, settings: map<nat, Tenant>)

  datatype Label =
    | Spawn(task: nat, parent: Option<nat>, frame: nat)
    | Enter(task: nat, model: Tenant, frame: nat)
    | Exit(task: nat)
    | Open(task: nat, session: nat)
    | Begin(task: nat, session: nat, connection: nat)
    | Bind(task: nat, session: nat, tenant: int)
    | End(session: nat)

  function Top(task: Task): nat
    requires |task.frames| > 0
  {
    task.frames[|task.frames| - 1].id
  }

  predicate Running(s: State, t: nat) { t in s.tasks && |s.tasks[t].frames| > 0 }

  predicate InUse(s: State, c: nat) { exists u :: u in s.sessions && s.sessions[u].connection == Some(c) }

  predicate Enabled(s: State, l: Label) {
    match l
    case Spawn(t, parent, f) => t !in s.tasks && f !in s.tenants && (parent.Some? ==> parent.value in s.tasks)
    case Enter(t, _, f) => Running(s, t) && f !in s.tenants
    case Exit(t) => Running(s, t) && |s.tasks[t].frames| > 1
    case Open(t, u) => Running(s, t) && u !in s.sessions
    case Begin(t, u, c) => Running(s, t) && u in s.sessions && s.sessions[u].connection.None? && !InUse(s, c)
    case Bind(t, u, _) => Running(s, t) && Top(s.tasks[t]) in s.tenants && u in s.sessions &&
      s.sessions[u].connection.Some?
    case End(u) => u in s.sessions && s.sessions[u].connection.Some?
  }

  function Setting(s: State, c: nat): Tenant { if c in s.settings then s.settings[c] else None }

  /** Binding also claims a frame that acted for nobody yet. */
  function Apply(s: State, l: Label): State
    requires Enabled(s, l)
  {
    match l
    case Spawn(t, parent, f) =>
      var current := if parent.Some? then s.tasks[parent.value].current else None;
      s.(tasks := s.tasks[t := Task(current, [Frame(f, None)])], tenants := s.tenants[f := current],
        owners := s.owners[f := t])
    case Enter(t, m, f) =>
      s.(tasks := s.tasks[t := Task(m, s.tasks[t].frames + [Frame(f, s.tasks[t].current)])],
        tenants := s.tenants[f := m], owners := s.owners[f := t])
    case Exit(t) =>
      var last := |s.tasks[t].frames| - 1;
      s.(tasks := s.tasks[t := Task(s.tasks[t].frames[last].saved, s.tasks[t].frames[..last])])
    case Open(t, u) => s.(sessions := s.sessions[u := Use(Top(s.tasks[t]), None)])
    case Begin(t, u, c) =>
      s.(sessions := s.sessions[u := s.sessions[u].(connection := Some(c))],
         settings := s.settings[c := Published(s.tasks[t].current, Setting(s, c))])
    case Bind(t, u, m) =>
      var top := Top(s.tasks[t]);
      s.(tasks := s.tasks[t := s.tasks[t].(current := Some(m))],
         tenants := if s.tenants[top].None? then s.tenants[top := Some(m)] else s.tenants,
         settings := s.settings[s.sessions[u].connection.value := Some(m)])
    case End(u) =>
      s.(sessions := s.sessions[u := s.sessions[u].(connection := None)],
         settings := s.settings[s.sessions[u].connection.value := None])
  }

  predicate IsRun(s: State, run: seq<Label>)
    decreases |run|
  {
    |run| == 0 || (Enabled(s, run[0]) && IsRun(Apply(s, run[0]), run[1..]))
  }

  function After(s: State, run: seq<Label>): State
    requires IsRun(s, run)
    decreases |run|
  {
    if |run| == 0 then s else After(Apply(s, run[0]), run[1..])
  }

  const INITIAL: State := State(map[], map[], map[], map[], map[])
}
