/**
 The worker protocol together with the taskers: every worker owns one, its listener runs it between
 receiving a work and looking up the result channel, and closes it once it has left its loop. A call of
 `Break` that does not find the worker idle enters the tasker's `Break`, and nothing else does. The steps
 of the protocol, of each tasker's `Run` and of each `Break` interleave freely.
 */
module WorkerTaskers {
  import opened Collections
  import W = WorkerProtocol
  import WorkerInvariant
  import WorkerSafety
  import WorkerStep
  import T = TaskerConnection

  /** Whether the listener's call of the tasker's `Run` for the current work is still to come, has been
      entered, or has returned. */
  datatype Stage = Before | During | After

  datatype System = System(protocol: W.State, taskers: seq<T.Tasker>, stages: seq<Stage>)

  datatype Event =
    | Protocol(event: W.Event)
    | RunStep(w: nat, step: T.RunStep)
    | BreakStep(b: nat)

  predicate Sized(s: System) {
    |s.taskers| == |s.stages| == |s.protocol.workers|
  }

  /** The tasker runs only while its listener is executing a work, once for each work; the result is there
      when it has returned. CloseAndFree is the protocol's Close. A breaker enters the tasker's `Break` when no
      other is inside, takes its steps, and leaves with the last of them. */
  predicate Enabled(s: System, e: Event) {
    Sized(s) &&
    match e
    case Protocol(ListenerEvent(w, Execute(i))) => W.Enabled(s.protocol, e.event) && s.stages[w].After?
    case Protocol(ListenerEvent(w, Close)) =>
      W.Enabled(s.protocol, e.event) && T.RunEnabled(s.taskers[w], T.CloseAndFree)
    case Protocol(BreakerEvent(b, EnterBreak)) =>
      && W.Enabled(s.protocol, e.event) && s.protocol.breakers[b].pc.w < |s.taskers|
      && s.taskers[s.protocol.breakers[b].pc.w].breakPc.Outside?
    case Protocol(BreakerEvent(b, LeaveBreak)) => false
    case Protocol(event) => W.Enabled(s.protocol, event)
    case RunStep(w, step) =>
      && w < |s.taskers| && s.protocol.workers[w].listener.Running? && T.RunEnabled(s.taskers[w], step)
      && !step.CloseAndFree? && (step.Begin? ==> s.stages[w].Before?)
    case BreakStep(b) =>
      && b < |s.protocol.breakers| && s.protocol.breakers[b].pc.Inside? && s.protocol.breakers[b].pc.w < |s.taskers|
      && T.BreakEnabled(s.taskers[s.protocol.breakers[b].pc.w])
  }

  function Apply(s: System, e: Event): System
    requires Enabled(s, e)
  {
    match e
    case Protocol(ListenerEvent(w, Execute(_))) =>
      System(W.Apply(s.protocol, e.event), s.taskers, s.stages[w := Before])
    case Protocol(ListenerEvent(w, Close)) =>
      System(W.Apply(s.protocol, e.event), s.taskers[w := T.RunApply(s.taskers[w], T.CloseAndFree)], s.stages)
    case Protocol(ClientEvent(_, CreateWorker)) =>
      System(W.Apply(s.protocol, e.event), s.taskers + [T.NewTasker()], s.stages + [Before])
    case Protocol(BreakerEvent(b, EnterBreak)) =>
      var w := s.protocol.breakers[b].pc.w;
      s.(protocol := W.Apply(s.protocol, e.event), taskers := s.taskers[w := T.BreakApply(s.taskers[w])])
    case Protocol(event) => s.(protocol := W.Apply(s.protocol, event))
    case RunStep(w, step) =>
      var stage := if step.Begin? then During else if step.Return? then After else s.stages[w];
      s.(taskers := s.taskers[w := T.RunApply(s.taskers[w], step)], stages := s.stages[w := stage])
    case BreakStep(b) =>
      var w := s.protocol.breakers[b].pc.w;
      var t := T.BreakApply(s.taskers[w]);
      var left := if t.breakPc.Outside? then W.Apply(s.protocol, W.BreakerEvent(b, W.LeaveBreak)) else s.protocol;
      s.(protocol := left, taskers := s.taskers[w := t])
  }

  function Init(): System { System(W.Init(), [], []) }

  ghost predicate Leads(s: System, es: seq<Event>, t: System)
    decreases |es|
  {
    if es == [] then s == t else Enabled(s, es[0]) && Leads(Apply(s, es[0]), es[1..], t)
  }

  ghost predicate Reachable(s: System) {
    exists es :: Leads(Init(), es, s)
  }

  // ---------- The invariant ----------

  predicate Closed(l: W.Listener) { l.Purging? || l.Uncounting? || l.Exited? }

  /** How the listener, its tasker and the stage of the current work go together. */
  predicate InStep(l: W.Listener, t: T.Tasker, stage: Stage) {
    && (stage.During? <==> !t.pc.Idle? && !t.pc.Freed?)
    && (!stage.Before? ==> l.Running?)
    && (t.pc.Freed? <==> Closed(l))
  }

  /** Nobody but its creator knows a worker that has not been counted: it has no work. */
  predicate Unknown(worker: W.Worker, t: T.Tasker) {
    && (worker.listener.FirstToken? || worker.listener.Select? || worker.listener.Unregistering?)
    && t.conns == []
  }

  predicate Known(s: W.State, c: nat)
    requires c < |s.clients|
  {
    var pc := s.clients[c].pc;
    pc.Lookup? || pc.Create? || pc.Counting? || (pc.w < |s.workers| && s.workers[pc.w].counted)
  }

  predicate WorkerFits(s: System, w: nat)
    requires Sized(s) && w < |s.taskers|
  {
    && InStep(s.protocol.workers[w].listener, s.taskers[w], s.stages[w])
    && (!s.protocol.workers[w].counted ==> Unknown(s.protocol.workers[w], s.taskers[w]))
  }

  predicate IsInside(p: W.State, b: nat, w: nat) {
    b < |p.breakers| && p.breakers[b].pc == W.Inside(w)
  }

  /** A breaker knows a worker, and whoever is inside a tasker's `Break` is alone there. */
  ghost predicate BreakerFits(s: System, b: nat)
    requires b < |s.protocol.breakers|
  {
    var pc := s.protocol.breakers[b].pc;
    && (pc.BreakSelect? || pc.Interrupt? || pc.Inside? ==> pc.w < |s.taskers|)
    && (pc.Inside? ==> !s.taskers[pc.w].breakPc.Outside?
                       && forall a: nat | IsInside(s.protocol, a, pc.w) :: a == b)
  }

  /** A tasker's `Break` is under way only if a breaker is inside. */
  ghost predicate Entered(s: System, w: nat)
    requires w < |s.taskers|
  {
    !s.taskers[w].breakPc.Outside? ==> exists b: nat :: IsInside(s.protocol, b, w)
  }

  ghost predicate BreakersFit(s: System) {
    && (forall b: nat | b < |s.protocol.breakers| :: BreakerFits(s, b))
    && forall w: nat | w < |s.taskers| :: Entered(s, w)
  }

  ghost predicate Inv(s: System) {
    && Sized(s) && WorkerInvariant.Inv(s.protocol)
    && (forall w: nat | w < |s.taskers| :: T.TaskerInv(s.taskers[w]))
    && (forall w: nat | w < |s.taskers| :: WorkerFits(s, w))
    && (forall c: nat | c < |s.protocol.clients| :: Known(s.protocol, c))
    && BreakersFit(s)
  }

  // ---------- Steps ----------

  lemma ClientKeepsFit(s: W.State, c: nat, step: W.ClientStep, w: nat, t: T.Tasker, stage: Stage)
    requires W.ClientEnabled(s, c, step) && w < |s.workers| && Known(s, c)
    requires InStep(s.workers[w].listener, t, stage) && (!s.workers[w].counted ==> Unknown(s.workers[w], t))
    ensures var u := W.ClientApply(s, c, step);
      && w < |u.workers| && InStep(u.workers[w].listener, t, stage)
      && (!u.workers[w].counted ==> Unknown(u.workers[w], t))
  {
  }

  lemma ClientStaysKnown(s: W.State, c: nat, step: W.ClientStep, d: nat)
    requires WorkerInvariant.Inv(s) && W.ClientEnabled(s, c, step) && d < |s.clients| && Known(s, d)
    ensures Known(W.ClientApply(s, c, step), d)
  {
    if step.ReadRegistry? && d == c && s.clients[c].key in s.registry {
      assert WorkerInvariant.WorkerOk(s, s.registry[s.clients[c].key]);
    }
  }

  lemma ListenerKeepsFit(s: W.State, v: nat, step: W.ListenerStep, t: T.Tasker, stage: Stage)
    requires W.ListenerEnabled(s, v, step) && WorkerInvariant.WorkerOk(s, v)
    requires InStep(s.workers[v].listener, t, stage) && (!s.workers[v].counted ==> Unknown(s.workers[v], t))
    requires step.Unregister? ==> s.workers[v].counted
    ensures var u := W.ListenerApply(s, v, step).workers[v];
      && (!step.Execute? && !step.Close? ==> InStep(u.listener, t, stage))
      && (step.Execute? && stage.After? ==> InStep(u.listener, t, Before))
      && (step.Close? && T.RunEnabled(t, T.CloseAndFree) ==> InStep(u.listener, T.RunApply(t, T.CloseAndFree), stage))
      && (!u.counted ==> Unknown(u, t) && !step.Close?)
  {
  }

  lemma ListenerKeepsOthers(s: W.State, v: nat, step: W.ListenerStep, w: nat)
    requires W.ListenerEnabled(s, v, step) && w < |s.workers| && w != v
    ensures var u := W.ListenerApply(s, v, step); w < |u.workers| && u.workers[w] == s.workers[w]
  {
  }

  lemma ListenerKeepsKnown(s: W.State, v: nat, step: W.ListenerStep, d: nat)
    requires W.ListenerEnabled(s, v, step) && d < |s.clients| && Known(s, d)
    ensures Known(W.ListenerApply(s, v, step), d)
  {
  }

  lemma TaskerStepKeepsInv(t: T.Tasker, e: T.TaskerEvent)
    requires T.TaskerInv(t) && T.TaskerEnabled(t, e)
    ensures T.TaskerInv(T.TaskerApply(t, e))
  {
    var u := T.TaskerApply(t, e);
    assert T.TaskerLeads(u, [], u);
    assert T.TaskerLeads(t, [e], u);
    T.TaskerRunKeepsInv(t, [e], u);
  }

  lemma NewTaskerInv()
    ensures T.TaskerInv(T.NewTasker())
  {
  }

  /** Breakers fit as long as they stay where they are, taskers keep their number and `Break` its place. */
  lemma BreakersStay(s: System, u: System)
    requires Sized(s) && BreakersFit(s) && u.protocol.breakers == s.protocol.breakers && |s.taskers| <= |u.taskers|
    requires forall w: nat | w < |s.taskers| :: u.taskers[w].breakPc == s.taskers[w].breakPc
    requires forall w: nat | |s.taskers| <= w < |u.taskers| :: u.taskers[w].breakPc.Outside?
    ensures BreakersFit(u)
  {
    forall a: nat, w: nat ensures IsInside(u.protocol, a, w) <==> IsInside(s.protocol, a, w) {}
    forall b: nat | b < |u.protocol.breakers| ensures BreakerFits(u, b) { assert BreakerFits(s, b); }
    forall w: nat | w < |u.taskers| ensures Entered(u, w) {
      if w < |s.taskers| && !s.taskers[w].breakPc.Outside? {
        assert Entered(s, w);
        var b: nat :| IsInside(s.protocol, b, w);
        assert IsInside(u.protocol, b, w);
      }
    }
  }

  lemma ClientStepKeeps(s: System, c: nat, step: W.ClientStep)
    requires Inv(s) && Enabled(s, Protocol(W.ClientEvent(c, step)))
    ensures Inv(Apply(s, Protocol(W.ClientEvent(c, step))))
  {
    var u := Apply(s, Protocol(W.ClientEvent(c, step)));
    WorkerStep.StepKeepsInv(s.protocol, W.ClientEvent(c, step));
    NewTaskerInv();
    forall w: nat | w < |u.taskers| ensures T.TaskerInv(u.taskers[w]) && WorkerFits(u, w) {
      if w < |s.taskers| {
        assert WorkerFits(s, w);
        ClientKeepsFit(s.protocol, c, step, w, s.taskers[w], s.stages[w]);
      }
    }
    forall d: nat | d < |u.protocol.clients| ensures Known(u.protocol, d) {
      ClientStaysKnown(s.protocol, c, step, d);
    }
    ClientLeavesBreakers(s.protocol, c, step);
    BreakersStay(s, u);
  }

  lemma ClientLeavesBreakers(s: W.State, c: nat, step: W.ClientStep)
    requires W.ClientEnabled(s, c, step)
    ensures W.ClientApply(s, c, step).breakers == s.breakers
  {
  }

  lemma ListenerLeavesBreakers(s: W.State, v: nat, step: W.ListenerStep)
    requires W.ListenerEnabled(s, v, step)
    ensures W.ListenerApply(s, v, step).breakers == s.breakers
  {
  }

  lemma ListenerStepKeeps(s: System, v: nat, step: W.ListenerStep)
    requires Inv(s) && Enabled(s, Protocol(W.ListenerEvent(v, step)))
    ensures Inv(Apply(s, Protocol(W.ListenerEvent(v, step))))
  {
    var u := Apply(s, Protocol(W.ListenerEvent(v, step)));
    WorkerStep.StepKeepsInv(s.protocol, W.ListenerEvent(v, step));
    forall w: nat | w < |u.taskers| ensures T.TaskerInv(u.taskers[w]) && WorkerFits(u, w) {
      ListenerKeepsWorker(s, v, step, w);
    }
    forall d: nat | d < |u.protocol.clients| ensures Known(u.protocol, d) {
      ListenerKeepsKnown(s.protocol, v, step, d);
    }
    ListenerLeavesBreakers(s.protocol, v, step);
    if step.Close? { RunLeavesBreak(s.taskers[v], T.CloseAndFree); }
    BreakersStay(s, u);
  }

  lemma ListenerKeepsWorker(s: System, v: nat, step: W.ListenerStep, w: nat)
    requires Inv(s) && Enabled(s, Protocol(W.ListenerEvent(v, step))) && w < |s.taskers|
    ensures var u := Apply(s, Protocol(W.ListenerEvent(v, step)));
      Sized(u) && w < |u.taskers| && T.TaskerInv(u.taskers[w]) && WorkerFits(u, w)
  {
    assert WorkerInvariant.WorkerOk(s.protocol, v) && WorkerFits(s, v) && WorkerFits(s, w);
    if w != v {
      ListenerKeepsOthers(s.protocol, v, step, w);
    } else {
      ListenerKeepsFit(s.protocol, v, step, s.taskers[v], s.stages[v]);
      if step.Close? { TaskerStepKeepsInv(s.taskers[v], T.RunEvent(T.CloseAndFree)); }
    }
  }

  /** New calls and breakers leave workers and clients alone, but for a worker's token. */
  lemma OthersKeepFit(s: System, e: W.Event, u: System)
    requires Inv(s) && W.Enabled(s.protocol, e) && (e.CallRun? || e.CallBreak? || e.BreakerEvent?)
    requires u.protocol == W.Apply(s.protocol, e) && |u.taskers| == |s.taskers| && u.stages == s.stages
    requires forall w: nat | w < |s.taskers| :: SameRun(s.taskers[w], u.taskers[w])
    ensures WorkerInvariant.Inv(u.protocol) && Sized(u)
    ensures forall w: nat | w < |u.taskers| :: WorkerFits(u, w)
    ensures forall d: nat | d < |u.protocol.clients| :: Known(u.protocol, d)
  {
    WorkerStep.StepKeepsInv(s.protocol, e);
    WorkerStep.OthersChange(s.protocol, e);
    forall w: nat | w < |u.taskers| ensures WorkerFits(u, w) { assert WorkerFits(s, w); }
    forall d: nat | d < |u.protocol.clients| ensures Known(u.protocol, d) {
      assert d < |s.protocol.clients| ==> Known(s.protocol, d);
    }
  }

  /** Taskers that differ in what their `Break` has done. */
  predicate SameRun(t: T.Tasker, u: T.Tasker) {
    u == t.(breakPc := u.breakPc, kills := u.kills)
  }

  lemma CallStepKeeps(s: System, e: W.Event)
    requires Inv(s) && Enabled(s, Protocol(e)) && (e.CallRun? || e.CallBreak? || e.BreakerEvent?)
    requires e.BreakerEvent? ==> e.breakerStep.ReadForBreak? || e.breakerStep.TryToken?
    ensures Inv(Apply(s, Protocol(e)))
  {
    var u := Apply(s, Protocol(e));
    OthersKeepFit(s, e, u);
    forall b: nat | b < |u.protocol.breakers| ensures BreakerFits(u, b) {
      assert b < |s.protocol.breakers| ==> BreakerFits(s, b);
      OthersKeepBreaker(s, e, b);
    }
    forall w: nat | w < |u.taskers| ensures Entered(u, w) {
      if !s.taskers[w].breakPc.Outside? {
        assert Entered(s, w);
        var b: nat :| IsInside(s.protocol, b, w);
        StaysInside(s.protocol, e, b, w);
      }
    }
  }

  /** Nobody gets inside a tasker's `Break` by these steps, or out of it. */
  lemma StaysInside(p: W.State, e: W.Event, b: nat, w: nat)
    requires W.Enabled(p, e) && (e.CallRun? || e.CallBreak? || e.BreakerEvent?)
    requires e.BreakerEvent? ==> e.breakerStep.ReadForBreak? || e.breakerStep.TryToken?
    ensures IsInside(W.Apply(p, e), b, w) <==> IsInside(p, b, w)
  {
  }

  lemma OthersKeepBreaker(s: System, e: W.Event, b: nat)
    requires Inv(s) && Enabled(s, Protocol(e)) && (e.CallRun? || e.CallBreak? || e.BreakerEvent?)
    requires e.BreakerEvent? ==> e.breakerStep.ReadForBreak? || e.breakerStep.TryToken?
    requires b < |W.Apply(s.protocol, e).breakers| && (b < |s.protocol.breakers| ==> BreakerFits(s, b))
    ensures BreakerFits(Apply(s, Protocol(e)), b)
  {
    var u := Apply(s, Protocol(e));
    if u.protocol.breakers[b].pc.Inside? {
      var w := u.protocol.breakers[b].pc.w;
      StaysInside(s.protocol, e, b, w);
      forall a: nat | IsInside(u.protocol, a, w) ensures a == b { StaysInside(s.protocol, e, a, w); }
    }
  }

  lemma NobodyInside(s: System, w: nat)
    requires BreakersFit(s) && w < |s.taskers| && s.taskers[w].breakPc.Outside?
    ensures forall a: nat :: !IsInside(s.protocol, a, w)
  {
    forall a: nat ensures !IsInside(s.protocol, a, w) {
      if a < |s.protocol.breakers| { assert BreakerFits(s, a); }
    }
  }

  /** A breaker enters a tasker's `Break` that nobody is inside. */
  lemma EnterKeeps(s: System, b: nat)
    requires Inv(s) && Enabled(s, Protocol(W.BreakerEvent(b, W.EnterBreak)))
    ensures Inv(Apply(s, Protocol(W.BreakerEvent(b, W.EnterBreak))))
  {
    var e := W.BreakerEvent(b, W.EnterBreak);
    var u, w := Apply(s, Protocol(e)), s.protocol.breakers[b].pc.w;
    TaskerStepKeepsInv(s.taskers[w], T.BreakEvent);
    T.BreakKeepsRun(s.taskers[w]);
    OthersKeepFit(s, e, u);
    forall a: nat, v: nat ensures IsInside(u.protocol, a, v) <==> IsInside(s.protocol, a, v) || (a == b && v == w) {}
    NobodyInside(s, w);
    forall a: nat | a < |u.protocol.breakers| ensures BreakerFits(u, a) { assert BreakerFits(s, a); }
    forall v: nat | v < |u.taskers| ensures Entered(u, v) {
      if v == w {
        assert IsInside(u.protocol, b, w);
      } else if !s.taskers[v].breakPc.Outside? {
        assert Entered(s, v);
        var a: nat :| IsInside(s.protocol, a, v);
        assert IsInside(u.protocol, a, v);
      }
    }
  }

  lemma RunStepKeeps(s: System, w: nat, step: T.RunStep)
    requires Inv(s) && Enabled(s, RunStep(w, step))
    ensures Inv(Apply(s, RunStep(w, step)))
  {
    var u := Apply(s, RunStep(w, step));
    assert WorkerFits(s, w);
    TaskerStepKeepsInv(s.taskers[w], T.RunEvent(step));
    RunStepFits(s.protocol.workers[w].listener, s.taskers[w], s.stages[w], step);
    assert u.protocol == s.protocol;
    forall v: nat | v < |u.taskers| ensures T.TaskerInv(u.taskers[v]) && WorkerFits(u, v) {
      assert WorkerFits(s, v);
    }
    RunLeavesBreak(s.taskers[w], step);
    BreakersStay(s, u);
  }

  lemma RunLeavesBreak(t: T.Tasker, step: T.RunStep)
    requires T.RunEnabled(t, step)
    ensures T.RunApply(t, step).breakPc == t.breakPc && T.RunApply(t, step).kills == t.kills
  {
  }

  lemma RunStepFits(l: W.Listener, t: T.Tasker, stage: Stage, step: T.RunStep)
    requires InStep(l, t, stage) && l.Running? && T.RunEnabled(t, step)
    requires !step.CloseAndFree? && (step.Begin? ==> stage.Before?)
    ensures InStep(l, T.RunApply(t, step), if step.Begin? then During else if step.Return? then After else stage)
  {
  }

  /** A breaker inside takes a step, and leaves if it was the last. */
  lemma BreakStepKeeps(s: System, b: nat)
    requires Inv(s) && Enabled(s, BreakStep(b))
    ensures Inv(Apply(s, BreakStep(b)))
  {
    var u, w := Apply(s, BreakStep(b)), s.protocol.breakers[b].pc.w;
    TaskerStepKeepsInv(s.taskers[w], T.BreakEvent);
    T.BreakKeepsRun(s.taskers[w]);
    BreakStepFits(s, b);
    assert BreakerFits(s, b) && IsInside(s.protocol, b, w);
    forall a: nat, v: nat
      ensures IsInside(u.protocol, a, v) <==> IsInside(s.protocol, a, v) && (a != b || !u.taskers[w].breakPc.Outside?)
    {}
    forall a: nat | a < |u.protocol.breakers| ensures BreakerFits(u, a) { assert BreakerFits(s, a); }
    forall v: nat | v < |u.taskers| ensures Entered(u, v) {
      if v == w {
        assert u.taskers[w].breakPc.Outside? || IsInside(u.protocol, b, w);
      } else if !s.taskers[v].breakPc.Outside? {
        assert Entered(s, v);
        var a: nat :| IsInside(s.protocol, a, v);
        assert IsInside(u.protocol, a, v);
      }
    }
  }

  lemma BreakStepFits(s: System, b: nat)
    requires Inv(s) && Enabled(s, BreakStep(b))
    ensures var u := Apply(s, BreakStep(b));
      && WorkerInvariant.Inv(u.protocol) && Sized(u)
      && (forall w: nat | w < |u.taskers| :: WorkerFits(u, w))
      && (forall d: nat | d < |u.protocol.clients| :: Known(u.protocol, d))
  {
    var u, w := Apply(s, BreakStep(b)), s.protocol.breakers[b].pc.w;
    T.BreakKeepsRun(s.taskers[w]);
    if u.taskers[w].breakPc.Outside? {
      OthersKeepFit(s, W.BreakerEvent(b, W.LeaveBreak), u);
    } else {
      forall v: nat | v < |u.taskers| ensures WorkerFits(u, v) { assert WorkerFits(s, v); }
    }
  }

  lemma StepKeepsInv(s: System, e: Event)
    requires Inv(s) && Enabled(s, e)
    ensures Inv(Apply(s, e))
  {
    match e
    case Protocol(ClientEvent(c, step)) => ClientStepKeeps(s, c, step);
    case Protocol(ListenerEvent(w, step)) => ListenerStepKeeps(s, w, step);
    case Protocol(BreakerEvent(b, EnterBreak)) => EnterKeeps(s, b);
    case Protocol(event) => CallStepKeeps(s, event);
    case RunStep(w, step) => RunStepKeeps(s, w, step);
    case BreakStep(b) => BreakStepKeeps(s, b);
  }

  lemma {:induction false} RunKeepsInv(s: System, es: seq<Event>, t: System)
    requires Inv(s) && Leads(s, es, t)
    ensures Inv(t)
    decreases |es|
  {
    if es != [] {
      StepKeepsInv(s, es[0]);
      RunKeepsInv(Apply(s, es[0]), es[1..], t);
    }
  }

  lemma ReachableInv(s: System)
    requires Reachable(s)
    ensures Inv(s)
  {
    var es :| Leads(Init(), es, s);
    assert W.Leads(W.Init(), [], W.Init());
    WorkerStep.ReachableInv(W.Init());
    RunKeepsInv(Init(), es, s);
  }

  // ---------- What holds of the whole ----------

  lemma AtWorker(s: System, w: nat)
    requires Reachable(s) && w < |s.protocol.workers|
    ensures Sized(s) && WorkerFits(s, w) && T.TaskerInv(s.taskers[w]) && WorkerInvariant.WorkerOk(s.protocol, w)
  {
    ReachableInv(s);
  }

  /** While a listener has left its loop its tasker is not inside a Run and cannot enter one; closing it
      never has to wait; once it is closed nothing is open. The panic in connect is unreachable. */
  lemma NothingRunsAfterLeaving(s: System, w: nat)
    requires Reachable(s) && w < |s.protocol.workers|
    ensures Sized(s) && !s.taskers[w].pc.Panicked?
    ensures s.protocol.workers[w].listener.Leaving() ==> s.taskers[w].pc.Idle? || s.taskers[w].pc.Freed?
    ensures s.protocol.workers[w].listener.Leaving() ==> forall step :: !Enabled(s, RunStep(w, step))
    ensures s.protocol.workers[w].listener.Closing? ==> Enabled(s, Protocol(W.ListenerEvent(w, W.Close)))
    ensures Closed(s.protocol.workers[w].listener) ==> T.OpenConns(s.taskers[w].conns) == {}
  {
    AtWorker(s, w);
  }

  ghost predicate Gone(s: System, w: nat) {
    Sized(s) && WorkerSafety.Left(s.protocol, w)
  }

  lemma GoneStep(s: System, e: Event, w: nat)
    requires Enabled(s, e) && Gone(s, w)
    ensures Gone(Apply(s, e), w)
    ensures Apply(s, e).taskers[w].last == s.taskers[w].last
    ensures |Apply(s, e).taskers[w].conns| == |s.taskers[w].conns|
  {
    if e.BreakStep? { T.BreakKeepsRun(s.taskers[s.protocol.breakers[e.b].pc.w]); }
    if e.Protocol? { ProtocolStep(s, e.event); }
    if e.Protocol? { WorkerSafety.LeftStep(s.protocol, e.event, w); }
  }

  /** A step of the protocol changes a tasker by closing it, or by entering its `Break`, or not at all. */
  lemma ProtocolStep(s: System, e: W.Event)
    requires Enabled(s, Protocol(e))
    ensures Apply(s, Protocol(e)).protocol == W.Apply(s.protocol, e) && Sized(Apply(s, Protocol(e)))
    ensures forall w: nat | w < |s.taskers| ::
      var t := Apply(s, Protocol(e)).taskers[w];
      || SameRun(s.taskers[w], t)
      || (T.RunEnabled(s.taskers[w], T.CloseAndFree) && t == T.RunApply(s.taskers[w], T.CloseAndFree))
  {
    if e.BreakerEvent? && e.breakerStep.EnterBreak? {
      T.BreakKeepsRun(s.taskers[s.protocol.breakers[e.b].pc.w]);
    }
  }

  /** From then on, in every continuation, no Run of that tasker returns and no connection is opened: none
      follows CloseAndFree. */
  lemma {:induction false} NoRunFollows(s: System, es: seq<Event>, t: System, w: nat)
    requires Leads(s, es, t) && Gone(s, w)
    ensures Gone(t, w) && t.taskers[w].last == s.taskers[w].last && |t.taskers[w].conns| == |s.taskers[w].conns|
    decreases |es|
  {
    if es != [] {
      GoneStep(s, es[0], w);
      NoRunFollows(Apply(s, es[0]), es[1..], t, w);
    }
  }

  // ---------- One Run for each execution ----------

  function Bit(b: bool): nat { if b then 1 else 0 }

  /** How often `Run` of tasker `w` is entered in these events. */
  function Begins(es: seq<Event>, w: nat): nat {
    if es == [] then 0
    else Bit(es[0].RunStep? && es[0].w == w && es[0].step.Begin?) + Begins(es[1..], w)
  }

  /** How many works of worker `w` are executed. */
  function Executions(es: seq<Event>, w: nat): nat {
    if es == [] then 0
    else
      Bit(es[0].Protocol? && es[0].event.ListenerEvent? && es[0].event.w == w && es[0].event.listenerStep.Execute?)
      + Executions(es[1..], w)
  }

  /** A Run of tasker `w` has been entered and its work not yet counted as executed. */
  predicate InHand(s: System, w: nat) {
    w < |s.stages| && !s.stages[w].Before?
  }

  lemma RunBalanceStep(s: System, e: Event, w: nat)
    requires Inv(s) && Enabled(s, e)
    ensures Bit(InHand(Apply(s, e), w)) == Bit(InHand(s, w)) + Begins([e], w) - Executions([e], w)
  {
    assert [e][1..] == [] && Begins([], w) == 0 && Executions([], w) == 0;
    match e
    case RunStep(v, step) => assert WorkerFits(s, v);
    case BreakStep(b) =>
    case Protocol(event) =>
  }

  /** In every run `Run` of a tasker is entered once for each work its worker executes, and at most once more for the
      work in hand. */
  lemma {:induction false} OneRunForEachWork(s: System, es: seq<Event>, t: System, w: nat)
    requires Inv(s) && Leads(s, es, t)
    ensures Begins(es, w) + Bit(InHand(s, w)) == Executions(es, w) + Bit(InHand(t, w))
    decreases |es|
  {
    if es != [] {
      RunBalanceStep(s, es[0], w);
      StepKeepsInv(s, es[0]);
      OneRunForEachWork(Apply(s, es[0]), es[1..], t, w);
      assert [es[0]][1..] == [];
    }
  }

  /** The workers whose tasker has an open connection. */
  function Connected(s: System): set<nat> {
    set w: nat | w < |s.taskers| && T.OpenConns(s.taskers[w].conns) != {}
  }

  lemma OneOpenWhileCounted(s: System, w: nat)
    requires Reachable(s) && w < |s.protocol.workers|
    ensures Sized(s) && |T.OpenConns(s.taskers[w].conns)| <= 1
    ensures var worker := s.protocol.workers[w];
      && (T.OpenConns(s.taskers[w].conns) != {} ==> worker.counted && !worker.listener.Exited?)
      && (worker.listener.Exited? ==> worker.counted)
  {
    AtWorker(s, w);
    OneOpen(s.taskers[w]);
  }

  /** There are never more open connections than numberOfSessions counts sessions: each tasker has one at
      most, and only those of counted workers that have not closed have any. */
  lemma SessionsBoundConnections(s: System)
    requires Reachable(s)
    ensures forall w: nat | w < |s.taskers| :: |T.OpenConns(s.taskers[w].conns)| <= 1
    ensures |Connected(s)| <= s.protocol.sessions
  {
    var counted := WorkerInvariant.CountedWorkers(s.protocol.workers);
    var gone := WorkerInvariant.GoneWorkers(s.protocol.workers);
    CountedAsSessions(s);
    forall w: nat | w < |s.taskers|
      ensures |T.OpenConns(s.taskers[w].conns)| <= 1
      ensures w in Connected(s) ==> w in counted - gone
      ensures w in gone ==> w in counted
    {
      OneOpenWhileCounted(s, w);
    }
    assert gone <= counted && counted == (counted - gone) + gone;
    SubsetSize(Connected(s), counted - gone);
  }

  lemma CountedAsSessions(s: System)
    requires Reachable(s)
    ensures Sized(s) && s.protocol.sessions ==
      |WorkerInvariant.CountedWorkers(s.protocol.workers)| - |WorkerInvariant.GoneWorkers(s.protocol.workers)|
  {
    ReachableInv(s);
  }

  lemma OneOpen(t: T.Tasker)
    requires T.TaskerInv(t)
    ensures |T.OpenConns(t.conns)| <= 1
  {
    var open := T.OpenConns(t.conns);
    if i :| i in open {
      assert forall j <- open :: j == i;
      assert open == {i};
    }
  }

}
