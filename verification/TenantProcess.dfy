/**
 * The process that runs the tasks: its contexts, scopes and sessions are objects. Each operation does to the objects
 * what the transition system says of the operation's label, so what is proved of runs holds of them.
 */
module TenantProcess {
  import opened Basics
  import opened Tenancy
  import opened TenantRuns

  /**
   * What can be seen of the objects: each task's variable and the tokens of its scopes, the innermost last, and of each
   * session whether a transaction is open and the setting its statements see.
   */
  datatype View = View(currents: map<nat, Tenant>, tokens: map<nat, seq<Tenant>>, open: map<nat, bool>,
                       settings: map<nat, Tenant>)

  // ---- What an operation does to the objects --------------------------------------------------

  predicate Possible(v: View, l: Label) {
    match l
    case Spawn(t, parent, _) => t !in v.currents && (parent.Some? ==> parent.value in v.currents)
    case Enter(t, _, _) => t in v.currents && t in v.tokens
    case Exit(t) => t in v.currents && t in v.tokens && v.tokens[t] != []
    case Open(t, u) => u !in v.open
    case Begin(t, u, _) => t in v.currents && u in v.open && u in v.settings && !v.open[u]
    case Bind(t, u, _) => t in v.currents && u in v.open && u in v.settings && v.open[u]
    case End(u) => u in v.open && u in v.settings
  }

  function Effect(v: View, l: Label): View
    requires Possible(v, l)
  {
    match l
    case Spawn(t, parent, _) =>
      v.(currents := v.currents[t := if parent.Some? then v.currents[parent.value] else None],
         tokens := v.tokens[t := []])
    case Enter(t, m, _) =>
      v.(currents := v.currents[t := m], tokens := v.tokens[t := v.tokens[t] + [v.currents[t]]])
    case Exit(t) =>
      var last := |v.tokens[t]| - 1;
      v.(currents := v.currents[t := v.tokens[t][last]], tokens := v.tokens[t := v.tokens[t][..last]])
    case Open(_, u) => v.(open := v.open[u := false], settings := v.settings[u := None])
    case Begin(t, u, _) =>
      v.(open := v.open[u := true], settings := v.settings[u := Published(v.currents[t], None)])
    case Bind(t, u, m) => v.(currents := v.currents[t := Some(m)], settings := v.settings[u := Some(m)])
    case End(u) => v.(open := v.open[u := false], settings := v.settings[u := None])
  }

  // ---- It is what the transition system says ----------------------------------------------------

  predicate TaskShows(s: State, t: nat, current: Tenant, tokens: seq<Tenant>) {
    && t in s.tasks && s.tasks[t].current == current && |s.tasks[t].frames| == |tokens| + 1
    && forall i :: 0 <= i < |tokens| ==> s.tasks[t].frames[i + 1].saved == tokens[i]
  }

  predicate SessionShows(s: State, u: nat, open: bool, setting: Tenant) {
    && u in s.sessions && (open <==> s.sessions[u].connection.Some?)
    && setting == if open then Setting(s, s.sessions[u].connection.value) else None
  }

  ghost predicate TasksShow(s: State, v: View) {
    && v.currents.Keys == v.tokens.Keys == s.tasks.Keys
    && forall t :: t in v.currents && t in v.tokens ==> TaskShows(s, t, v.currents[t], v.tokens[t])
  }

  ghost predicate SessionsShow(s: State, v: View) {
    && v.open.Keys == v.settings.Keys == s.sessions.Keys
    && forall u :: u in v.open && u in v.settings ==> SessionShows(s, u, v.open[u], v.settings[u])
  }

  /** The objects show the state, whose connections are used one at a time and are clean when nobody uses them. */
  ghost predicate Shows(s: State, v: View) { TasksShow(s, v) && SessionsShow(s, v) && ConnectionsOk(s) }

  lemma EnabledIsPossible(s: State, v: View, l: Label)
    requires Shows(s, v) && Enabled(s, l)
    ensures Possible(v, l)
  {
    if l.Exit? { assert TaskShows(s, l.task, v.currents[l.task], v.tokens[l.task]); }
    if l.Begin? || l.Bind? { assert SessionShows(s, l.session, v.open[l.session], v.settings[l.session]); }
  }

  lemma TaskFollows(s: State, v: View, l: Label, t: nat)
    requires TasksShow(s, v) && Enabled(s, l) && Possible(v, l) && t in Effect(v, l).currents
    ensures t in Effect(v, l).tokens
    ensures TaskShows(Apply(s, l), t, Effect(v, l).currents[t], Effect(v, l).tokens[t])
  {
    if t in v.currents { assert TaskShows(s, t, v.currents[t], v.tokens[t]); }
    if l.Spawn? && l.parent.Some? {
      assert TaskShows(s, l.parent.value, v.currents[l.parent.value], v.tokens[l.parent.value]);
    }
  }

  lemma TasksFollow(s: State, v: View, l: Label)
    requires TasksShow(s, v) && Enabled(s, l) && Possible(v, l)
    ensures TasksShow(Apply(s, l), Effect(v, l))
  {
    var now := Effect(v, l);
    forall t | t in now.currents && t in now.tokens
      ensures TaskShows(Apply(s, l), t, now.currents[t], now.tokens[t])
    {
      TaskFollows(s, v, l, t);
    }
    TaskKeysFollow(s, v, l);
  }

  lemma TaskKeysFollow(s: State, v: View, l: Label)
    requires v.currents.Keys == v.tokens.Keys == s.tasks.Keys && Enabled(s, l) && Possible(v, l)
    ensures Effect(v, l).currents.Keys == Effect(v, l).tokens.Keys == Apply(s, l).tasks.Keys
  {
  }

  /** A session that the step does not use keeps what it shows: no other session holds its connection. */
  lemma OtherSessionFollows(s: State, v: View, l: Label, u: nat)
    requires SessionsShow(s, v) && ConnectionsOk(s) && Enabled(s, l) && Possible(v, l) && u in v.open
    requires l.Spawn? || l.Enter? || l.Exit? || l.session != u
    ensures u in Effect(v, l).open && u in Effect(v, l).settings
    ensures SessionShows(Apply(s, l), u, Effect(v, l).open[u], Effect(v, l).settings[u])
  {
    assert SessionShows(s, u, v.open[u], v.settings[u]);
    if v.open[u] { assert InUse(s, s.sessions[u].connection.value); }
  }

  lemma UsedSessionFollows(s: State, v: View, l: Label)
    requires Shows(s, v) && Enabled(s, l) && Possible(v, l) && (l.Open? || l.Begin? || l.Bind? || l.End?)
    ensures l.session in Effect(v, l).open && l.session in Effect(v, l).settings
    ensures SessionShows(Apply(s, l), l.session, Effect(v, l).open[l.session], Effect(v, l).settings[l.session])
  {
    if l.session in v.open { assert SessionShows(s, l.session, v.open[l.session], v.settings[l.session]); }
    if l.Begin? {
      assert TaskShows(s, l.task, v.currents[l.task], v.tokens[l.task]);
      assert Setting(s, l.connection) == None;
    }
  }

  lemma SessionKeysFollow(s: State, v: View, l: Label)
    requires v.open.Keys == v.settings.Keys == s.sessions.Keys && Enabled(s, l) && Possible(v, l)
    ensures Effect(v, l).open.Keys == Effect(v, l).settings.Keys == Apply(s, l).sessions.Keys
    ensures forall u :: u in Effect(v, l).open && u !in v.open ==> l.Open? && l.session == u
  {
  }

  lemma SessionsFollow(s: State, v: View, l: Label)
    requires Shows(s, v) && Enabled(s, l) && Possible(v, l)
    ensures SessionsShow(Apply(s, l), Effect(v, l))
  {
    var now := Effect(v, l);
    SessionKeysFollow(s, v, l);
    forall u | u in now.open && u in now.settings
      ensures SessionShows(Apply(s, l), u, now.open[u], now.settings[u])
    {
      if !(l.Spawn? || l.Enter? || l.Exit?) && l.session == u {
        UsedSessionFollows(s, v, l);
      } else {
        OtherSessionFollows(s, v, l, u);
      }
    }
  }

  /** Every operation whose label is enabled can be called, and takes the objects to what the label's state shows. */
  lemma OperationIsStep(s: State, v: View, l: Label)
    requires Shows(s, v) && Enabled(s, l)
    ensures Possible(v, l) && Shows(Apply(s, l), Effect(v, l))
  {
    EnabledIsPossible(s, v, l);
    TasksFollow(s, v, l);
    SessionsFollow(s, v, l);
    ConnectionsKept(s, l);
  }

  predicate CanRun(v: View, run: seq<Label>)
    decreases |run|
  {
    |run| == 0 || (Possible(v, run[0]) && CanRun(Effect(v, run[0]), run[1..]))
  }

  function Effects(v: View, run: seq<Label>): View
    requires CanRun(v, run)
    decreases |run|
  {
    if |run| == 0 then v else Effects(Effect(v, run[0]), run[1..])
  }

  /** So is every sequence of operations. */
  lemma {:induction false} OperationsAreRun(s: State, v: View, run: seq<Label>)
    requires Shows(s, v) && IsRun(s, run)
    ensures CanRun(v, run) && Shows(After(s, run), Effects(v, run))
    decreases |run|
  {
    if |run| == 0 {
    } else {
      OperationIsStep(s, v, run[0]);
      OperationsAreRun(Apply(s, run[0]), Effect(v, run[0]), run[1..]);
    }
  }

  const NOTHING: View := View(map[], map[], map[], map[])

  /** Isolation, of the objects: after any disciplined operations a session sees rows of its own frame's tenant only. */
  lemma SessionsSeeOwnRows(run: seq<Label>, u: nat, rowModel: int)
    requires IsDisciplinedRun(INITIAL, run)
    ensures IsRun(INITIAL, run) && CanRun(NOTHING, run)
    ensures var v, s := Effects(NOTHING, run), After(INITIAL, run);
      u in v.settings && Visible(v.settings[u], rowModel) ==>
        u in s.sessions && TenantOf(s, s.sessions[u].frame) == Some(rowModel)
  {
    RunKeeps(INITIAL, run);
    OperationsAreRun(INITIAL, NOTHING, run);
    var v, s := Effects(NOTHING, run), After(INITIAL, run);
    if u in v.settings { assert SessionShows(s, u, v.open[u], v.settings[u]) && SettingOk(s, u); }
  }

  function Bound(v: View, t: nat, u: nat, m: int): View {
    v.(currents := v.currents[t := Some(m)], open := v.open[u := true], settings := v.settings[u := Some(m)])
  }

  lemma BoundIs(v: View, t: nat, u: nat, m: int, c: nat)
    requires t in v.currents && u in v.open && u in v.settings
    ensures v.open[u] ==> Bound(v, t, u, m) == Effect(v, Label.Bind(t, u, m))
    ensures !v.open[u] ==> Bound(v, t, u, m) == Effect(Effect(v, Label.Begin(t, u, c)), Label.Bind(t, u, m))
  {
    if v.open[u] {
      assert v.open[u := true] == v.open;
    } else {
      assert v.settings[u := Published(v.currents[t], None)][u := Some(m)] == v.settings[u := Some(m)];
    }
  }

  // ---- The objects --------------------------------------------------------------------------------

  class Process {
    var contexts: map<nat, Context>
    var tokens: map<nat, seq<Tenant>>
    var sessions: map<nat, Session>
    ghost var view: View

    /** The view is what the tasks' objects show; no two tasks share a context. */
    ghost predicate TasksValid()
      reads this, contexts.Values
    {
      && contexts.Keys == view.currents.Keys && tokens == view.tokens
      && (forall t :: t in contexts ==> contexts[t].current == view.currents[t])
      && (forall t, v :: t in contexts && v in contexts && t != v ==> contexts[t] != contexts[v])
    }

    /** And what the sessions show; no two names name one session, and a setting lives in a transaction only. */
    ghost predicate SessionsValid()
      reads this, sessions.Values
    {
      && sessions.Keys == view.open.Keys == view.settings.Keys
      && (forall u :: u in sessions ==> sessions[u].open == view.open[u] && sessions[u].setting == view.settings[u])
      && (forall u :: u in sessions && !sessions[u].open ==> sessions[u].setting == None)
      && (forall u, v :: u in sessions && v in sessions && u != v ==> sessions[u] != sessions[v])
    }

    ghost predicate Valid()
      reads this, contexts.Values, sessions.Values
    {
      TasksValid() && SessionsValid()
    }

    constructor ()
      ensures Valid() && view == NOTHING
    {
      contexts, tokens, sessions, view := map[], map[], map[], NOTHING;
    }

    /** A task starts with a copy of its parent's context. */
    method Spawn(t: nat, parent: Option<nat>, ghost f: nat)
      requires Valid() && Possible(view, Label.Spawn(t, parent, f))
      modifies this
      ensures Valid() && view == Effect(old(view), Label.Spawn(t, parent, f))
    {
      var context := new Context();
      if parent.Some? { context.current := contexts[parent.value].current; }
      contexts := contexts[t := context];
      tokens := tokens[t := []];
      view := Effect(view, Label.Spawn(t, parent, f));
    }

    method Enter(t: nat, model: Tenant, ghost f: nat)
      requires Valid() && Possible(view, Label.Enter(t, model, f))
      modifies this, contexts.Values
      ensures Valid() && view == Effect(old(view), Label.Enter(t, model, f))
    {
      var token := EnterScope(contexts[t], model);
      tokens := tokens[t := tokens[t] + [token]];
      view := Effect(view, Label.Enter(t, model, f));
    }

    method Exit(t: nat)
      requires Valid() && Possible(view, Label.Exit(t))
      modifies this, contexts.Values
      ensures Valid() && view == Effect(old(view), Label.Exit(t))
    {
      var last := |tokens[t]| - 1;
      ExitScope(contexts[t], tokens[t][last]);
      tokens := tokens[t := tokens[t][..last]];
      view := Effect(view, Label.Exit(t));
    }

    method Open(t: nat, u: nat)
      requires Valid() && Possible(view, Label.Open(t, u))
      modifies this
      ensures Valid() && view == Effect(old(view), Label.Open(t, u))
    {
      var session := new Session();
      sessions := sessions[u := session];
      view := Effect(view, Label.Open(t, u));
    }

    method Begin(t: nat, u: nat, ghost c: nat)
      requires Valid() && Possible(view, Label.Begin(t, u, c))
      modifies this, sessions.Values
      ensures Valid() && view == Effect(old(view), Label.Begin(t, u, c))
    {
      BeginSession(t, u);
    }

    method BeginSession(t: nat, u: nat)
      requires Valid() && t in contexts && u in sessions && !sessions[u].open
      modifies this, sessions.Values
      ensures Valid()
      ensures view == old(view).(open := old(view).open[u := true],
                                 settings := old(view).settings[u := Published(old(view).currents[t], None)])
    {
      sessions[u].Begin(contexts[t]);
      view := view.(open := view.open[u := true],
                    settings := view.settings[u := Published(view.currents[t], None)]);
    }

    /** Binding a session that has no transaction yet begins one. */
    method Bind(t: nat, u: nat, model: int, ghost c: nat)
      requires Valid() && t in contexts && u in sessions
      modifies this, contexts.Values, sessions.Values
      ensures Valid()
      ensures old(view).open[u] ==> view == Effect(old(view), Label.Bind(t, u, model))
      ensures !old(view).open[u] ==>
        view == Effect(Effect(old(view), Label.Begin(t, u, c)), Label.Bind(t, u, model))
    {
      BoundIs(view, t, u, model, c);
      BindSession(t, u, model);
    }

    method BindSession(t: nat, u: nat, model: int)
      requires Valid() && t in contexts && u in sessions
      modifies this, contexts.Values, sessions.Values
      ensures Valid() && view == Bound(old(view), t, u, model)
    {
      sessions[u].BindTenant(contexts[t], model);
      view := Bound(view, t, u, model);
    }

    method End(u: nat)
      requires Valid() && Possible(view, Label.End(u))
      modifies this, sessions.Values
      ensures Valid() && view == Effect(old(view), Label.End(u))
    {
      sessions[u].End();
      view := Effect(view, Label.End(u));
    }
  }
}
