/**
 * No interleaving of tasks lets a transaction run as another tenant, while sessions stay in the scope they belong to.
 */
module TenantRuns {
  import opened Basics
  import opened Tenancy

  /** A session is used in the frame it was opened in, and binding does not change whom a frame acts for. */
  predicate Disciplined(s: State, l: Label)
    requires Enabled(s, l)
  {
    match l
    case Begin(t, u, _) => s.sessions[u].frame == Top(s.tasks[t])
    case Bind(t, u, m) =>
      s.sessions[u].frame == Top(s.tasks[t]) && s.tenants[Top(s.tasks[t])] in {None, Some(m)}
    case _ => true
  }

  predicate IsDisciplinedRun(s: State, run: seq<Label>)
    decreases |run|
  {
    |run| == 0 || (Enabled(s, run[0]) && Disciplined(s, run[0]) && IsDisciplinedRun(Apply(s, run[0]), run[1..]))
  }

  // ---- What holds -----------------------------------------------------------------------

  /** A task's frames are its own, and the variable and what scopes restore are the tenants of the frames. */
  ghost predicate TaskOk(s: State, t: nat, task: Task) {
    && |task.frames| > 0
    && (forall i :: 0 <= i < |task.frames| ==> Owned(s, t, task.frames[i].id))
    && (forall i, j :: 0 <= i < j < |task.frames| ==> task.frames[i].id != task.frames[j].id)
    && task.current == s.tenants[Top(task)]
    && (forall i :: 0 < i < |task.frames| ==> task.frames[i].saved == TenantOf(s, task.frames[i - 1].id))
  }

  predicate Owned(s: State, t: nat, f: nat) { f in s.tenants && f in s.owners && s.owners[f] == t }

  function TenantOf(s: State, f: nat): Tenant { if f in s.tenants then s.tenants[f] else None }

  /** A transaction's setting is its own tenant or nothing. */
  predicate SettingOk(s: State, u: nat)
    requires u in s.sessions
  {
    s.sessions[u].connection.Some? ==>
      Setting(s, s.sessions[u].connection.value) in {None, TenantOf(s, s.sessions[u].frame)}
  }

  /** Connections are used one at a time, and one that nobody uses carries no tenant. */
  ghost predicate ConnectionsOk(s: State) {
    && (forall u, v :: u in s.sessions && v in s.sessions && u != v && s.sessions[u].connection.Some?
                       ==> s.sessions[u].connection != s.sessions[v].connection)
    && (forall c: nat :: Setting(s, c).Some? ==> InUse(s, c))
  }

  ghost predicate Inv(s: State) {
    && (forall t :: t in s.tasks ==> TaskOk(s, t, s.tasks[t]))
    && (forall u :: u in s.sessions ==> s.sessions[u].frame in s.tenants && SettingOk(s, u))
    && (forall f :: f in s.tenants <==> f in s.owners)
    && ConnectionsOk(s)
  }

  // ---- Every disciplined step -----------------------------------------------------------

  /** The frame acts for whom it acted, and is whose it was. */
  predicate FrameKept(s: State, after: State, f: nat) {
    f in s.tenants && f in s.owners ==>
      f in after.tenants && f in after.owners && after.tenants[f] == s.tenants[f] && after.owners[f] == s.owners[f]
  }

  /** A task that is left alone, and so are its frames, stays as it should be. */
  lemma UntouchedTaskKept(s: State, after: State, t: nat, task: Task)
    requires TaskOk(s, t, task) && forall i :: 0 <= i < |task.frames| ==> FrameKept(s, after, task.frames[i].id)
    ensures TaskOk(after, t, task)
  {
    forall i | 0 <= i < |task.frames| ensures Owned(after, t, task.frames[i].id) {
      assert Owned(s, t, task.frames[i].id) && FrameKept(s, after, task.frames[i].id);
    }
    forall i | 0 < i < |task.frames| ensures task.frames[i].saved == TenantOf(after, task.frames[i - 1].id) {
      assert Owned(s, t, task.frames[i - 1].id) && FrameKept(s, after, task.frames[i - 1].id);
    }
    assert Owned(s, t, Top(task)) && FrameKept(s, after, Top(task));
  }

  lemma BinderKept(s: State, l: Label)
    requires Inv(s) && l.Bind? && Enabled(s, l) && Disciplined(s, l)
    ensures TaskOk(Apply(s, l), l.task, Apply(s, l).tasks[l.task])
  {
    var task, after := s.tasks[l.task], Apply(s, l);
    assert TaskOk(s, l.task, task);
    forall i | 0 <= i < |task.frames| ensures Owned(after, l.task, task.frames[i].id) {
      assert Owned(s, l.task, task.frames[i].id);
    }
    forall i | 0 < i < |task.frames| ensures task.frames[i].saved == TenantOf(after, task.frames[i - 1].id) {
      assert Owned(s, l.task, task.frames[i - 1].id) && task.frames[i - 1].id != Top(task);
    }
  }

  lemma BoundTaskKept(s: State, l: Label, t: nat)
    requires Inv(s) && l.Bind? && Enabled(s, l) && Disciplined(s, l) && t in s.tasks
    ensures TaskOk(Apply(s, l), t, Apply(s, l).tasks[t])
  {
    if t == l.task {
      BinderKept(s, l);
    } else {
      var top := Top(s.tasks[l.task]);
      assert TaskOk(s, t, s.tasks[t]) && TaskOk(s, l.task, s.tasks[l.task]) && Owned(s, l.task, top);
      forall i | 0 <= i < |s.tasks[t].frames| ensures FrameKept(s, Apply(s, l), s.tasks[t].frames[i].id) {
        assert Owned(s, t, s.tasks[t].frames[i].id);
      }
      UntouchedTaskKept(s, Apply(s, l), t, s.tasks[t]);
    }
  }

  lemma EnteredTaskKept(s: State, l: Label)
    requires Inv(s) && l.Enter? && Enabled(s, l)
    ensures TaskOk(Apply(s, l), l.task, Apply(s, l).tasks[l.task])
  {
    var task := s.tasks[l.task];
    assert TaskOk(s, l.task, task);
    UntouchedTaskKept(s, Apply(s, l), l.task, task);
    forall i | 0 <= i < |task.frames| ensures task.frames[i].id != l.frame {
      assert Owned(s, l.task, task.frames[i].id);
    }
  }

  lemma ScopedTaskKept(s: State, l: Label, t: nat)
    requires Inv(s) && (l.Spawn? || l.Enter? || l.Exit?) && Enabled(s, l) && t in Apply(s, l).tasks
    ensures TaskOk(Apply(s, l), t, Apply(s, l).tasks[t])
  {
    if l.Enter? && t == l.task {
      EnteredTaskKept(s, l);
    } else if t in s.tasks {
      assert TaskOk(s, t, s.tasks[t]);
      UntouchedTaskKept(s, Apply(s, l), t, s.tasks[t]);
    }
  }

  lemma TasksKept(s: State, l: Label)
    requires Inv(s) && Enabled(s, l) && Disciplined(s, l)
    ensures forall t :: t in Apply(s, l).tasks ==> TaskOk(Apply(s, l), t, Apply(s, l).tasks[t])
  {
    forall t | t in Apply(s, l).tasks ensures TaskOk(Apply(s, l), t, Apply(s, l).tasks[t]) {
      if l.Bind? {
        BoundTaskKept(s, l, t);
      } else if l.Spawn? || l.Enter? || l.Exit? {
        ScopedTaskKept(s, l, t);
      } else {
        assert TaskOk(s, t, s.tasks[t]);
      }
    }
  }

  lemma SettingsKept(s: State, l: Label)
    requires Inv(s) && Enabled(s, l) && Disciplined(s, l)
    ensures forall u :: u in Apply(s, l).sessions ==>
      Apply(s, l).sessions[u].frame in Apply(s, l).tenants && SettingOk(Apply(s, l), u)
  {
    var after := Apply(s, l);
    forall u | u in after.sessions ensures after.sessions[u].frame in after.tenants && SettingOk(after, u) {
      if l.Begin? || l.Bind? || l.Open? { assert TaskOk(s, l.task, s.tasks[l.task]); }
      if l.Begin? { assert Setting(s, l.connection) == None; }
    }
  }

  lemma ConnectionsKept(s: State, l: Label)
    requires ConnectionsOk(s) && Enabled(s, l)
    ensures ConnectionsOk(Apply(s, l))
  {
    var after := Apply(s, l);
    forall c: nat | Setting(after, c).Some? ensures InUse(after, c) {
      if l.Begin? && c == l.connection {
        assert after.sessions[l.session].connection == Some(c);
      } else if l.Bind? && s.sessions[l.session].connection == Some(c) {
        assert after.sessions[l.session].connection == Some(c);
      } else {
        assert InUse(s, c);
        var u :| u in s.sessions && s.sessions[u].connection == Some(c);
        assert after.sessions[u].connection == Some(c);
      }
    }
  }

  lemma StepKeeps(s: State, l: Label)
    requires Inv(s) && Enabled(s, l) && Disciplined(s, l)
    ensures Inv(Apply(s, l))
  {
    TasksKept(s, l);
    SettingsKept(s, l);
    ConnectionsKept(s, l);
  }

  lemma {:induction false} RunKeeps(s: State, run: seq<Label>)
    requires Inv(s) && IsDisciplinedRun(s, run)
    ensures IsRun(s, run) && Inv(After(s, run))
    decreases |run|
  {
    if |run| == 0 {
    } else {
      StepKeeps(s, run[0]);
      RunKeeps(Apply(s, run[0]), run[1..]);
    }
  }

  /**
   * Isolation: after any interleaving of tasks, scopes, binds, commits and rollbacks, a transaction sees rows of its
   * own tenant only, and a connection no transaction uses shows none.
   */
  lemma OnlyOwnRowsAreVisible(run: seq<Label>, c: nat, rowModel: int)
    requires IsDisciplinedRun(INITIAL, run)
    ensures IsRun(INITIAL, run)
    ensures var s := After(INITIAL, run);
            Visible(Setting(s, c), rowModel) ==>
              exists u :: u in s.sessions && s.sessions[u].connection == Some(c) &&
                TenantOf(s, s.sessions[u].frame) == Some(rowModel)
  {
    RunKeeps(INITIAL, run);
    var s := After(INITIAL, run);
    if Visible(Setting(s, c), rowModel) {
      assert InUse(s, c);
      var u :| u in s.sessions && s.sessions[u].connection == Some(c);
      assert SettingOk(s, u);
    }
  }

  /** A transaction that begins or is bound runs as its frame's tenant: it sees exactly that tenant's rows. */
  lemma TransactionsArePublished(s: State, l: Label)
    requires Inv(s) && Enabled(s, l) && Disciplined(s, l) && (l.Begin? || l.Bind?)
    ensures var after := Apply(s, l);
            var session := after.sessions[l.session];
            session.connection.Some?
            && Setting(after, session.connection.value) == TenantOf(after, session.frame)
            && forall rowModel: int :: Visible(Setting(after, session.connection.value), rowModel) <==>
                 TenantOf(after, session.frame) == Some(rowModel)
  {
    assert TaskOk(s, l.task, s.tasks[l.task]);
  }

  /** A frame that acts for a tenant acts for it ever after. */
  lemma {:induction false} TenantsStay(s: State, run: seq<Label>, f: nat)
    requires IsRun(s, run) && f in s.tenants && s.tenants[f].Some?
    ensures f in After(s, run).tenants && After(s, run).tenants[f] == s.tenants[f]
    decreases |run|
  {
    if |run| == 0 {
    } else {
      TenantsStay(Apply(s, run[0]), run[1..], f);
    }
  }

  // ---- Scopes restore --------------------------------------------------------------------

  predicate DeeperThan(s: State, t: nat, depth: nat) { t in s.tasks && |s.tasks[t].frames| > depth }

  predicate StaysDeeper(s: State, run: seq<Label>, t: nat, depth: nat)
    requires IsRun(s, run)
    decreases |run|
  {
    DeeperThan(s, t, depth) && (|run| > 0 ==> StaysDeeper(Apply(s, run[0]), run[1..], t, depth))
  }

  lemma {:induction false} FramesBelowStay(s: State, run: seq<Label>, t: nat, depth: nat)
    requires IsRun(s, run) && StaysDeeper(s, run, t, depth)
    ensures DeeperThan(After(s, run), t, depth)
    ensures After(s, run).tasks[t].frames[..depth + 1] == s.tasks[t].frames[..depth + 1]
    decreases |run|
  {
    if |run| == 0 {
    } else {
      var next := Apply(s, run[0]);
      assert next.tasks[t].frames[..depth + 1] == s.tasks[t].frames[..depth + 1];
      FramesBelowStay(next, run[1..], t, depth);
    }
  }

  /**
   * Leaving a scope puts back what the variable held when it was entered, whatever ran inside: nested scopes, binds,
   * other tasks, failures. It needs no discipline.
   */
  lemma ScopesRestore(s: State, t: nat, m: Tenant, f: nat, run: seq<Label>)
    requires Enabled(s, Enter(t, m, f))
    requires IsRun(Apply(s, Enter(t, m, f)), run)
    requires StaysDeeper(Apply(s, Enter(t, m, f)), run, t, |s.tasks[t].frames|)
    requires !DeeperThan(After(Apply(s, Enter(t, m, f)), run), t, |s.tasks[t].frames| + 1)
    ensures var inside := After(Apply(s, Enter(t, m, f)), run);
            Enabled(inside, Exit(t)) && Apply(inside, Exit(t)).tasks[t] == s.tasks[t]
  {
    var entered := Apply(s, Enter(t, m, f));
    FramesBelowStay(entered, run, t, |s.tasks[t].frames|);
    var inside := After(entered, run);
    assert inside.tasks[t].frames == entered.tasks[t].frames;
    assert entered.tasks[t].frames[..|s.tasks[t].frames|] == s.tasks[t].frames;
  }

  // ---- Without discipline ------------------------------------------------------------------

  /** Wherever a session is used, its new transaction is safe exactly when the variable holds its own tenant or none. */
  lemma BeginIsSafeExactly(s: State, t: nat, u: nat, c: nat)
    requires Inv(s) && Enabled(s, Begin(t, u, c))
    ensures SettingOk(Apply(s, Begin(t, u, c)), u) <==> s.tasks[t].current in {None, TenantOf(s, s.sessions[u].frame)}
  {
    assert Setting(s, c) == None;
  }

  /**
   * Wherever a tenant is bound, every transaction is safe afterwards exactly when the session's own frame acts for that
   * tenant already, or is the frame that is running and acts for nobody yet.
   */
  lemma BindIsSafeExactly(s: State, t: nat, u: nat, m: int)
    requires Inv(s) && Enabled(s, Bind(t, u, m))
    ensures (forall v :: v in s.sessions ==> SettingOk(Apply(s, Bind(t, u, m)), v))
            <==> TenantOf(s, s.sessions[u].frame) == Some(m)
                 || (s.sessions[u].frame == Top(s.tasks[t]) && TenantOf(s, s.sessions[u].frame) == None)
  {
    var after := Apply(s, Bind(t, u, m));
    assert SettingOk(s, u) && after.sessions == s.sessions;
    assert SettingOk(after, u) <==> TenantOf(after, s.sessions[u].frame) == Some(m);
    forall v | v in s.sessions && v != u ensures SettingOk(after, v) { assert SettingOk(s, v); }
  }

  /** A session opened in one scope and first used in a scope nested in it runs as the inner tenant. */
  lemma OuterSessionInInnerScope(outer: int, inner: int) returns (s: State)
    requires outer != inner
    ensures var run := [Spawn(0, None, 0), Enter(0, Some(outer), 1), Open(0, 0), Enter(0, Some(inner), 2),
      Begin(0, 0, 0)];
            IsRun(INITIAL, run) && s == After(INITIAL, run)
    ensures Visible(Setting(s, 0), inner) && 0 in s.sessions && TenantOf(s, s.sessions[0].frame) == Some(outer)
  {
    var s1 := Apply(INITIAL, Spawn(0, None, 0));
    var s2 := Apply(s1, Enter(0, Some(outer), 1));
    var s3 := Apply(s2, Open(0, 0));
    var s4 := Apply(s3, Enter(0, Some(inner), 2));
    s := Apply(s4, Begin(0, 0, 0));
    OneStep(s4, Begin(0, 0, 0), []);
    OneStep(s3, Enter(0, Some(inner), 2), [Begin(0, 0, 0)]);
    OneStep(s2, Open(0, 0), [Enter(0, Some(inner), 2), Begin(0, 0, 0)]);
    OneStep(s1, Enter(0, Some(outer), 1), [Open(0, 0), Enter(0, Some(inner), 2), Begin(0, 0, 0)]);
    OneStep(INITIAL, Spawn(0, None, 0),
      [Enter(0, Some(outer), 1), Open(0, 0), Enter(0, Some(inner), 2), Begin(0, 0, 0)]);
  }

  lemma OneStep(s: State, l: Label, rest: seq<Label>)
    requires Enabled(s, l) && IsRun(Apply(s, l), rest)
    ensures IsRun(s, [l] + rest) && After(s, [l] + rest) == After(Apply(s, l), rest)
  {
    assert ([l] + rest)[1..] == rest;
  }
}
