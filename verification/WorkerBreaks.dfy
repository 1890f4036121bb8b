/** What a call of `Break` does to the tasker of a worker that is not idle: when it interrupts, exactly. */
module WorkerBreaks {
  import opened Options
  import opened WorkerTaskers
  import W = WorkerProtocol
  import WorkerInvariant
  import WorkerStep
  import WorkerRegistry
  import T = TaskerConnection

  ghost predicate LeadsTo(s: System, t: System) {
    exists es :: Leads(s, es, t)
  }

  lemma {:induction false} LeadsConcat(s: System, es: seq<Event>, t: System, fs: seq<Event>, u: System)
    requires Leads(s, es, t) && Leads(t, fs, u)
    ensures Leads(s, es + fs, u)
    decreases |es|
  {
    if es == [] {
      assert es + fs == fs;
    } else {
      LeadsConcat(Apply(s, es[0]), es[1..], t, fs, u);
      assert (es + fs)[1..] == es[1..] + fs;
    }
  }

  lemma Here(s: System)
    ensures LeadsTo(s, s)
  {
    assert Leads(s, [], s);
  }

  lemma Then(s: System, t: System, u: System)
    requires LeadsTo(s, t) && LeadsTo(t, u)
    ensures LeadsTo(s, u)
  {
    var es :| Leads(s, es, t);
    var fs :| Leads(t, fs, u);
    LeadsConcat(s, es, t, fs, u);
  }

  lemma One(s: System, e: Event)
    requires Enabled(s, e)
    ensures LeadsTo(s, Apply(s, e)) && (Inv(s) ==> Inv(Apply(s, e)))
  {
    assert Leads(Apply(s, e), [], Apply(s, e));
    assert Leads(s, [e], Apply(s, e));
    if Inv(s) { StepKeepsInv(s, e); }
  }

  function Pc(s: System, b: nat): W.BreakerPc
    requires b < |s.protocol.breakers|
  {
    s.protocol.breakers[b].pc
  }

  predicate At(s: System, b: nat, pc: W.BreakerPc) {
    b < |s.protocol.breakers| && s.protocol.breakers[b].pc == pc
  }

  // ---------- A breaker inside gets out ----------

  lemma StepInside(s: System, b: nat, w: nat)
    requires Inv(s) && At(s, b, W.Inside(w))
    ensures Enabled(s, BreakStep(b)) && w < |s.taskers| && Inv(Apply(s, BreakStep(b)))
    ensures var t := Apply(s, BreakStep(b));
      && w < |t.taskers| && T.StepsLeft(t.taskers[w].breakPc) < T.StepsLeft(s.taskers[w].breakPc)
      && (if t.taskers[w].breakPc.Outside? then At(t, b, W.BreakDone) else At(t, b, W.Inside(w)))
      && t.protocol == s.protocol.(breakers := t.protocol.breakers)
      && forall a: nat, pc | a != b && At(s, a, pc) :: At(t, a, pc)
  {
    assert BreakerFits(s, b);
    T.BreakAdvances(s.taskers[w]);
    One(s, BreakStep(b));
  }

  /** A breaker that is inside can leave, while everybody else stays where he is. */
  lemma Leaves(s: System, b: nat, w: nat) returns (t: System)
    requires Inv(s) && At(s, b, W.Inside(w)) && w < |s.taskers|
    ensures LeadsTo(s, t) && Inv(t) && At(t, b, W.BreakDone)
    ensures w < |t.taskers| && t.taskers[w].breakPc.Outside?
    ensures t.protocol == s.protocol.(breakers := t.protocol.breakers)
    ensures forall a: nat, pc | a != b && At(s, a, pc) :: At(t, a, pc)
    decreases T.StepsLeft(s.taskers[w].breakPc)
  {
    StepInside(s, b, w);
    One(s, BreakStep(b));
    t := Apply(s, BreakStep(b));
    if !t.taskers[w].breakPc.Outside? {
      var u := Leaves(t, b, w);
      Then(s, t, u);
      t := u;
    }
  }

  /** The tasker's `Break` can become free. */
  lemma Frees(s: System, b: nat, w: nat) returns (t: System)
    requires Inv(s) && w < |s.taskers| && At(s, b, W.Interrupt(w))
    ensures LeadsTo(s, t) && Inv(t) && At(t, b, W.Interrupt(w)) && w < |t.taskers| && t.taskers[w].breakPc.Outside?
  {
    if s.taskers[w].breakPc.Outside? {
      Here(s);
      t := s;
    } else {
      assert Entered(s, w);
      var a: nat :| IsInside(s.protocol, a, w);
      t := Leaves(s, a, w);
    }
  }

  lemma Enters(s: System, b: nat, w: nat) returns (t: System)
    requires Inv(s) && At(s, b, W.Interrupt(w))
    ensures LeadsTo(s, t) && Inv(t) && At(t, b, W.Inside(w))
  {
    assert BreakerFits(s, b);
    var u := Frees(s, b, w);
    var e := Protocol(W.BreakerEvent(b, W.EnterBreak));
    assert W.Enabled(u.protocol, e.event);
    One(u, e);
    t := Apply(u, e);
    Then(s, u, t);
  }

  // ---------- When a breaker interrupts ----------

  /** The call is still to try for the token of `w`, and the token is not in the channel. */
  predicate Busy(s: System, b: nat, w: nat) {
    At(s, b, W.BreakSelect(w)) && w < |s.protocol.workers| && !s.protocol.workers[w].signal
  }

  lemma BusyEnters(s: System, b: nat, w: nat) returns (t: System)
    requires Inv(s) && Busy(s, b, w)
    ensures LeadsTo(s, t) && Inv(t) && At(t, b, W.Inside(w))
  {
    var e := Protocol(W.BreakerEvent(b, W.TryToken));
    assert W.Enabled(s.protocol, e.event);
    One(s, e);
    var u := Apply(s, e);
    t := Enters(u, b, w);
    Then(s, u, t);
  }

  /** One event: a breaker about to try goes on waiting, or finds the token, or goes on to interrupt. */
  lemma TryStep(s: System, e: Event, b: nat, w: nat)
    requires Enabled(s, e) && At(s, b, W.BreakSelect(w)) && w < |s.protocol.workers|
    ensures var t := Apply(s, e);
      || At(t, b, W.BreakSelect(w))
      || (s.protocol.workers[w].signal && At(t, b, W.BreakDone))
      || (!s.protocol.workers[w].signal && At(t, b, W.Interrupt(w)))
    ensures w < |Apply(s, e).protocol.workers|
  {
    match e
    case Protocol(event) => ProtocolStep(s, event); EventTries(s.protocol, event, b, w);
    case _ =>
  }

  lemma EventTries(p: W.State, e: W.Event, b: nat, w: nat)
    requires W.Enabled(p, e) && b < |p.breakers| && p.breakers[b].pc == W.BreakSelect(w) && w < |p.workers|
    ensures w < |W.Apply(p, e).workers| && b < |W.Apply(p, e).breakers|
    ensures var pc := W.Apply(p, e).breakers[b].pc;
      pc == W.BreakSelect(w) || pc == if p.workers[w].signal then W.BreakDone else W.Interrupt(w)
  {
  }

  lemma {:induction false} DoneForever(s: System, es: seq<Event>, t: System, b: nat)
    requires Leads(s, es, t) && At(s, b, W.BreakDone)
    ensures At(t, b, W.BreakDone)
    decreases |es|
  {
    if es != [] {
      if es[0].Protocol? { ProtocolStep(s, es[0].event); }
      DoneForever(Apply(s, es[0]), es[1..], t, b);
    }
  }

  /** A breaker that has got inside has tried when the token was not there. */
  lemma {:induction false} WasBusy(s: System, es: seq<Event>, t: System, b: nat, w: nat) returns (u: System)
    requires Leads(s, es, t) && At(s, b, W.BreakSelect(w)) && w < |s.protocol.workers| && At(t, b, W.Inside(w))
    ensures LeadsTo(s, u) && Busy(u, b, w)
    decreases |es|
  {
    if !s.protocol.workers[w].signal {
      Here(s);
      u := s;
    } else {
      var v := Apply(s, es[0]);
      TryStep(s, es[0], b, w);
      if At(v, b, W.BreakDone) { DoneForever(v, es[1..], t, b); }
      u := WasBusy(v, es[1..], t, b, w);
      One(s, es[0]);
      Then(s, v, u);
    }
  }

  ghost predicate CanEnter(s: System, b: nat, w: nat) {
    exists t :: LeadsTo(s, t) && At(t, b, W.Inside(w))
  }

  ghost predicate CanFindBusy(s: System, b: nat, w: nat) {
    exists t :: LeadsTo(s, t) && Busy(t, b, w)
  }

  lemma {:induction false} InvAlong(s: System, es: seq<Event>, t: System)
    requires Inv(s) && Leads(s, es, t)
    ensures Inv(t)
  {
    RunKeepsInv(s, es, t);
  }

  /** In every reachable state a call of `Break` that has found worker `w` can still enter the `Break` of that
      worker's tasker exactly when the token of `w` can be absent from the channel as it tries. */
  lemma EntersExactly(s: System, b: nat, w: nat)
    requires Reachable(s) && At(s, b, W.BreakSelect(w))
    ensures CanEnter(s, b, w) <==> CanFindBusy(s, b, w)
  {
    ReachableInv(s);
    assert BreakerFits(s, b);
    if t :| LeadsTo(s, t) && At(t, b, W.Inside(w)) {
      var es :| Leads(s, es, t);
      var u := WasBusy(s, es, t, b, w);
    }
    if t :| LeadsTo(s, t) && Busy(t, b, w) {
      var es :| Leads(s, es, t);
      InvAlong(s, es, t);
      var u := BusyEnters(t, b, w);
      Then(s, t, u);
    }
  }

  /** Trying decides: it goes on to interrupt exactly when the token is not in the channel. */
  lemma InterruptsExactly(s: System, b: nat, w: nat)
    requires Reachable(s) && At(s, b, W.BreakSelect(w))
    ensures Enabled(s, Protocol(W.BreakerEvent(b, W.TryToken)))
    ensures var t := Apply(s, Protocol(W.BreakerEvent(b, W.TryToken)));
      && (CanEnter(t, b, w) <==> !s.protocol.workers[w].signal)
      && (s.protocol.workers[w].signal ==> At(t, b, W.BreakDone))
  {
    ReachableInv(s);
    assert BreakerFits(s, b);
    var e := Protocol(W.BreakerEvent(b, W.TryToken));
    assert W.Enabled(s.protocol, e.event);
    var t := Apply(s, e);
    TryStep(s, e, b, w);
    One(s, e);
    if s.protocol.workers[w].signal {
      forall u | LeadsTo(t, u) ensures !At(u, b, W.Inside(w)) {
        var es :| Leads(t, es, u);
        DoneForever(t, es, u, b);
      }
    } else {
      var u := Enters(t, b, w);
    }
  }

  // ---------- Nothing else interrupts ----------

  /** A tasker's `Break` begins only by a breaker that did not find its worker idle, goes on only by the steps
      of the breaker inside, and only these hand anything over. */
  lemma OnlyBreakersKill(s: System, e: Event, w: nat)
    requires Reachable(s) && Enabled(s, e) && w < |s.taskers|
    ensures w < |Apply(s, e).taskers|
    ensures Apply(s, e).taskers[w].breakPc != s.taskers[w].breakPc ==>
      if s.taskers[w].breakPc.Outside?
      then exists b: nat :: e == Protocol(W.BreakerEvent(b, W.EnterBreak)) && At(s, b, W.Interrupt(w))
      else exists b: nat :: e == BreakStep(b) && At(s, b, W.Inside(w))
    ensures Apply(s, e).taskers[w].kills != s.taskers[w].kills ==>
      exists b: nat :: e == BreakStep(b) && At(s, b, W.Inside(w))
  {
    ReachableInv(s);
    match e
    case Protocol(BreakerEvent(b, EnterBreak)) =>
    case Protocol(event) => LeavesTaskers(s, event, w);
    case RunStep(v, step) => RunLeavesBreak(s.taskers[v], step);
    case BreakStep(b) => assert BreakerFits(s, b);
  }

  lemma LeavesTaskers(s: System, e: W.Event, w: nat)
    requires Enabled(s, Protocol(e)) && w < |s.taskers| && (e.BreakerEvent? ==> !e.breakerStep.EnterBreak?)
    ensures var t := Apply(s, Protocol(e));
      w < |t.taskers| && t.taskers[w].breakPc == s.taskers[w].breakPc && t.taskers[w].kills == s.taskers[w].kills
  {
    match e
    case ListenerEvent(v, Close) => RunLeavesBreak(s.taskers[v], T.CloseAndFree);
    case _ =>
  }

  // ---------- Every call of Break can return ----------

  ghost predicate CanReturn(s: System, b: nat) {
    exists t :: LeadsTo(s, t) && At(t, b, W.BreakDone)
  }

  lemma InsideReturns(s: System, b: nat, w: nat)
    requires Inv(s) && At(s, b, W.Inside(w))
    ensures CanReturn(s, b)
  {
    assert BreakerFits(s, b);
    var t := Leaves(s, b, w);
  }

  lemma InterruptReturns(s: System, b: nat, w: nat)
    requires Inv(s) && At(s, b, W.Interrupt(w))
    ensures CanReturn(s, b)
  {
    var t := Enters(s, b, w);
    InsideReturns(t, b, w);
    var u :| LeadsTo(t, u) && At(u, b, W.BreakDone);
    Then(s, t, u);
  }

  lemma ReturnsAfter(s: System, e: Event, b: nat)
    requires Enabled(s, e) && CanReturn(Apply(s, e), b)
    ensures CanReturn(s, b)
  {
    var u :| LeadsTo(Apply(s, e), u) && At(u, b, W.BreakDone);
    One(s, e);
    Then(s, Apply(s, e), u);
  }

  lemma SelectReturns(s: System, b: nat, w: nat)
    requires Inv(s) && At(s, b, W.BreakSelect(w))
    ensures CanReturn(s, b)
  {
    assert BreakerFits(s, b);
    var e := Protocol(W.BreakerEvent(b, W.TryToken));
    assert W.Enabled(s.protocol, e.event);
    One(s, e);
    TryStep(s, e, b, w);
    if At(Apply(s, e), b, W.BreakDone) { Here(Apply(s, e)); } else { InterruptReturns(Apply(s, e), b, w); }
    ReturnsAfter(s, e, b);
  }

  lemma LookupReturns(s: System, b: nat)
    requires Inv(s) && At(s, b, W.BreakLookup) && s.protocol.wlock.None?
    ensures CanReturn(s, b)
  {
    var e := Protocol(W.BreakerEvent(b, W.ReadForBreak));
    assert W.Enabled(s.protocol, e.event);
    One(s, e);
    var t := Apply(s, e);
    if At(t, b, W.BreakDone) { Here(t); } else { SelectReturns(t, b, Pc(t, b).w); }
    ReturnsAfter(s, e, b);
  }

  /** In every reachable state every call of `Break` can still return. */
  lemma BreakReturns(s: System, b: nat)
    requires Reachable(s) && b < |s.protocol.breakers|
    ensures CanReturn(s, b)
  {
    ReachableInv(s);
    match Pc(s, b)
    case BreakLookup =>
      if s.protocol.wlock.None? {
        LookupReturns(s, b);
      } else {
        var d := s.protocol.wlock.value;
        assert WorkerInvariant.ClientOk(s.protocol, d);
        var e := Protocol(W.ClientEvent(d, W.CountWorker));
        assert W.Enabled(s.protocol, e.event);
        One(s, e);
        LookupReturns(Apply(s, e), b);
        ReturnsAfter(s, e, b);
      }
    case BreakSelect(w) => SelectReturns(s, b, w);
    case Interrupt(w) => InterruptReturns(s, b, w);
    case Inside(w) => InsideReturns(s, b, w);
    case BreakDone => Here(s);
  }

  // ---------- A run in which a task is interrupted ----------

  lemma {:induction false} LeadsOneMore(s: System, es: seq<Event>, t: System, e: Event)
    requires Leads(s, es, t) && Enabled(t, e)
    ensures Leads(s, es + [e], Apply(t, e))
  {
    assert Leads(Apply(t, e), [], Apply(t, e));
    assert Leads(t, [e], Apply(t, e));
    LeadsConcat(s, es, t, [e], Apply(t, e));
  }

  lemma Do(s: System, e: Event) returns (t: System)
    requires Reachable(s) && Enabled(s, e)
    ensures t == Apply(s, e) && Reachable(t)
  {
    var es :| Leads(Init(), es, s);
    LeadsOneMore(Init(), es, s, e);
    t := Apply(s, e);
  }

  /** One worker, and the client and the breakers that know it. */
  function Scene(key: W.Key, worker: W.Worker, chans: seq<W.Chan>, client: W.Client, breakers: seq<W.Breaker>,
                 t: T.Tasker, stage: Stage): System {
    System(W.State(None, map[key := 0], 1, [worker], chans, [client], breakers, []), [t], [stage])
  }

  lemma WorkerMade(key: W.Key, task: W.TaskId) returns (s: System)
    ensures Reachable(s)
    ensures s.protocol == W.State(Some(0), map[key := 0], 0,
                                  [W.Worker(key, false, map[], false, W.FirstToken, 0, false, 0)],
                                  [], [W.Client(key, task, W.Counting(0))], [], [])
    ensures s.taskers == [T.NewTasker()] && s.stages == [Before]
  {
    assert Leads(Init(), [], Init());
    s := Do(Init(), Protocol(W.CallRun(key, task)));
    s := Do(s, Protocol(W.ClientEvent(0, W.ReadRegistry)));
    s := Do(s, Protocol(W.ClientEvent(0, W.CreateWorker)));
  }

  lemma NewWorker(key: W.Key, task: W.TaskId) returns (s: System)
    ensures Reachable(s)
    ensures s == Scene(key, W.Worker(key, true, map[], false, W.Select, 0, true, 0), [],
                       W.Client(key, task, W.FindChan(0)), [], T.NewTasker(), Before)
  {
    s := WorkerMade(key, task);
    s := Do(s, Protocol(W.ClientEvent(0, W.CountWorker)));
    s := Do(s, Protocol(W.ListenerEvent(0, W.SendFirstToken)));
  }

  lemma TokenTaken(key: W.Key, task: W.TaskId) returns (s: System)
    ensures Reachable(s)
    ensures s == Scene(key, W.Worker(key, false, map[], false, W.Select, 0, true, 0), [],
                       W.Client(key, task, W.Register(0)), [], T.NewTasker(), Before)
  {
    s := NewWorker(key, task);
    s := Do(s, Protocol(W.ClientEvent(0, W.ReadTable)));
    s := Do(s, Protocol(W.ClientEvent(0, W.TakeToken)));
  }

  lemma WorkHanded(key: W.Key, task: W.TaskId) returns (s: System)
    ensures Reachable(s)
    ensures s == Scene(key, W.Worker(key, false, map[task := 0], false, W.Starting(W.Work(task, 0)), 0, true, 0),
                       [W.Chan(0, task, None, false, [], [])], W.Client(key, task, W.AwaitResult(0, 0)), [],
                       T.NewTasker(), Before)
  {
    s := TokenTaken(key, task);
    s := Do(s, Protocol(W.ClientEvent(0, W.RegisterChan)));
    s := Do(s, Protocol(W.ClientEvent(0, W.HandWork)));
  }

  /** The worker is running the work; its tasker is at `t`, and the breakers where they are. */
  function Work(key: W.Key, task: W.TaskId, breakers: seq<W.Breaker>, t: T.Tasker, stage: Stage): System {
    Scene(key, W.Worker(key, false, map[task := 0], true, W.Running(W.Work(task, 0)), 0, true, 0),
          [W.Chan(0, task, None, false, [], [])], W.Client(key, task, W.AwaitResult(0, 0)), breakers, t, stage)
  }

  lemma WorkBegun(key: W.Key, task: W.TaskId, creds: T.Creds) returns (s: System)
    ensures Reachable(s)
    ensures s == Work(key, task, [], T.NewTasker().(working := true, pc := T.Comparing(creds)), During)
  {
    s := WorkHanded(key, task);
    s := Do(s, Protocol(W.ListenerEvent(0, W.Start)));
    s := Do(s, RunStep(0, T.Begin(creds)));
  }

  /** The steps of the running tasker can be taken in the whole. */
  lemma RunTo(s: System, t: T.Tasker, step: T.RunStep) returns (u: System)
    requires Reachable(s) && |s.taskers| == 1 && s.taskers[0] == t && |s.protocol.workers| == 1 && |s.stages| == 1
    requires s.protocol.workers[0].listener.Running? && T.RunEnabled(t, step)
    requires !step.CloseAndFree? && !step.Begin? && !step.Return?
    ensures Reachable(u) && u == s.(taskers := [T.RunApply(t, step)])
  {
    u := Do(s, RunStep(0, step));
    assert s.stages[0 := s.stages[0]] == s.stages;
    assert s.taskers[0 := T.RunApply(t, step)] == [T.RunApply(t, step)];
  }

  lemma Opened(key: W.Key, task: W.TaskId, creds: T.Creds, sid: string) returns (s: System)
    requires creds != T.NO_CREDS
    ensures Reachable(s)
    ensures s == Work(key, task, [], T.Tasker(Some(0), T.NO_CREDS, "", true, [T.Connection(creds, sid, true)],
                                              T.SettingUser(creds), None, T.Outside, []), During)
  {
    s := WorkBegun(key, task, creds);
    s := RunTo(s, s.taskers[0], T.Compare);
    s := RunTo(s, s.taskers[0], T.Test);
    var t := s.taskers[0];
    s := RunTo(s, t, T.Open(T.LogonOk(sid)));
    assert T.RunApply(t, T.Open(T.LogonOk(sid))).conns == [T.Connection(creds, sid, true)];
  }

  lemma CredsStored(key: W.Key, task: W.TaskId, creds: T.Creds, sid: string) returns (s: System)
    requires creds != T.NO_CREDS
    ensures Reachable(s)
    ensures s == Work(key, task, [], T.Tasker(Some(0), creds, "", true, [T.Connection(creds, sid, true)],
                                              T.ClearingSid(creds), None, T.Outside, []), During)
  {
    s := Opened(key, task, creds, sid);
    s := RunTo(s, s.taskers[0], T.SetUser);
    s := RunTo(s, s.taskers[0], T.SetPass);
    s := RunTo(s, s.taskers[0], T.SetDsn);
  }

  function Connected(creds: T.Creds, sid: string, breakPc: T.BreakPc, kills: seq<T.Target>): T.Tasker {
    T.Tasker(Some(0), creds, sid, true, [T.Connection(creds, sid, true)], T.Working(creds), None, breakPc, kills)
  }

  /** The worker is executing the request on a connection of its own. */
  lemma Executing(key: W.Key, task: W.TaskId, creds: T.Creds, sid: string) returns (s: System)
    requires creds != T.NO_CREDS
    ensures Reachable(s) && s == Work(key, task, [], Connected(creds, sid, T.Outside, []), During)
  {
    s := CredsStored(key, task, creds, sid);
    s := RunTo(s, s.taskers[0], T.ClearSid);
    s := RunTo(s, s.taskers[0], T.Query(true));
    s := RunTo(s, s.taskers[0], T.SetSid);
  }

  lemma BreakerComes(key: W.Key, task: W.TaskId, creds: T.Creds, sid: string) returns (s: System)
    requires creds != T.NO_CREDS
    ensures Reachable(s)
    ensures s == Work(key, task, [W.Breaker(key, W.Inside(0))], Connected(creds, sid, T.TestWorking, []), During)
  {
    s := Executing(key, task, creds, sid);
    s := Do(s, Protocol(W.CallBreak(key)));
    s := Do(s, Protocol(W.BreakerEvent(0, W.ReadForBreak)));
    s := Do(s, Protocol(W.BreakerEvent(0, W.TryToken)));
    s := Do(s, Protocol(W.BreakerEvent(0, W.EnterBreak)));
  }

  /** A step of the breaker inside that is not its last. */
  lemma BreakTo(s: System, t: T.Tasker) returns (u: System)
    requires Reachable(s) && |s.taskers| == 1 && s.taskers[0] == t && At(s, 0, W.Inside(0)) && Sized(s)
    requires T.BreakEnabled(t) && !T.BreakApply(t).breakPc.Outside?
    ensures Reachable(u) && u == s.(taskers := [T.BreakApply(t)])
  {
    u := Do(s, BreakStep(0));
    assert s.taskers[0 := T.BreakApply(t)] == [T.BreakApply(t)];
  }

  lemma BreakerReads(key: W.Key, task: W.TaskId, creds: T.Creds, sid: string) returns (s: System)
    requires creds != T.NO_CREDS && sid != ""
    ensures Reachable(s)
    ensures s == Work(key, task, [W.Breaker(key, W.Inside(0))], Connected(creds, sid, T.ReadUser, []), During)
  {
    s := BreakerComes(key, task, creds, sid);
    s := BreakTo(s, s.taskers[0]);
    s := BreakTo(s, s.taskers[0]);
    s := BreakTo(s, s.taskers[0]);
    s := BreakTo(s, s.taskers[0]);
  }

  /** A breaker of a worker that is executing hands over the session of that worker's own connection. */
  lemma BreakerKillsOwnSession(key: W.Key, task: W.TaskId, creds: T.Creds, sid: string) returns (s: System)
    requires creds != T.NO_CREDS && sid != ""
    ensures Reachable(s) && |s.taskers| == 1 && |s.protocol.workers| == 1 && At(s, 0, W.Inside(0))
    ensures s.protocol.workers[0].listener.Running? && s.protocol.workers[0].key == key
    ensures s.taskers[0].conns == [T.Connection(creds, sid, true)] && s.taskers[0].kills == [T.Target(creds, sid)]
  {
    s := BreakerReads(key, task, creds, sid);
    s := BreakTo(s, s.taskers[0]);
    s := BreakTo(s, s.taskers[0]);
    s := BreakTo(s, s.taskers[0]);
    s := BreakTo(s, s.taskers[0]);
  }
}
