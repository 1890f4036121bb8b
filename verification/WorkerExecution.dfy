/** When a worker can still execute a work. */
module WorkerExecution {
  import opened Options
  import opened WorkerProtocol
  import opened WorkerInvariant
  import opened WorkerStep
  import opened WorkerSafety
  import opened WorkerRegistry

  /** Some continuation executes a work on `w`. */
  ghost predicate CanExecute(s: State, w: nat) {
    exists es, t, i :: Leads(s, es, t) && |s.log| <= i < |t.log| && t.log[i].worker == w
  }

  /** The execution behind which the listener leaves. */
  predicate LastExecution(s: State, w: nat)
    requires w < |s.workers|
  {
    match s.workers[w].listener
    case LookingUp(_, res) => res.interrupted
    case Sending(_, res, _) => res.interrupted
    case Finishing(res) => res.interrupted
    case ReturningToken(res) => res.interrupted
    case _ => false
  }

  lemma After(s: State, e: Event, w: nat)
    requires Enabled(s, e) && CanExecute(Apply(s, e), w) && |s.log| <= |Apply(s, e).log|
    ensures CanExecute(s, w)
  {
    var es, t, i :| Leads(Apply(s, e), es, t) && |Apply(s, e).log| <= i < |t.log| && t.log[i].worker == w;
    assert ([e] + es)[1..] == es;
    assert Leads(s, [e] + es, t);
  }

  // ---------- Workers that can ----------

  lemma RunningExecutes(s: State, w: nat)
    requires Inv(s) && w < |s.workers| && (s.workers[w].listener.Starting? || s.workers[w].listener.Running?)
    ensures CanExecute(s, w)
    decreases s.workers[w].listener.Starting?
  {
    assert WorkerOk(s, w);
    if s.workers[w].listener.Starting? {
      StepKeepsInv(s, ListenerEvent(w, Start));
      RunningExecutes(Apply(s, ListenerEvent(w, Start)), w);
      After(s, ListenerEvent(w, Start), w);
    } else {
      var t := Apply(s, ListenerEvent(w, Execute(false)));
      assert Leads(t, [], t);
      assert Leads(s, [ListenerEvent(w, Execute(false))], t) && t.log[|s.log|].worker == w;
    }
  }

  lemma HolderExecutes(s: State, c: nat, w: nat)
    requires Inv(s) && c < |s.clients| && w < |s.workers| && Holds(s.clients[c], w) && s.workers[w].listener.Select?
    ensures CanExecute(s, w)
    decreases s.clients[c].pc.Register?
  {
    assert ClientOk(s, c);
    if s.clients[c].pc.Register? {
      StepKeepsInv(s, ClientEvent(c, RegisterChan));
      HolderExecutes(Apply(s, ClientEvent(c, RegisterChan)), c, w);
      After(s, ClientEvent(c, RegisterChan), w);
    } else {
      StepKeepsInv(s, ClientEvent(c, HandWork));
      RunningExecutes(Apply(s, ClientEvent(c, HandWork)), w);
      After(s, ClientEvent(c, HandWork), w);
    }
  }

  predicate Ready(s: State, w: nat) {
    w < |s.workers| && s.workers[w].listener.Select? && s.workers[w].signal
  }

  lemma WaiterExecutes(s: State, c: nat, w: nat)
    requires Inv(s) && Ready(s, w) && c < |s.clients| && s.clients[c].pc == AwaitToken(w)
    ensures CanExecute(s, w)
  {
    StepKeepsInv(s, ClientEvent(c, TakeToken));
    HolderExecutes(Apply(s, ClientEvent(c, TakeToken)), c, w);
    After(s, ClientEvent(c, TakeToken), w);
  }

  lemma FinderExecutes(s: State, c: nat, w: nat)
    requires Inv(s) && Ready(s, w) && c < |s.clients| && s.clients[c].pc == FindChan(w)
    requires s.clients[c].task !in s.workers[w].outChans
    ensures CanExecute(s, w)
  {
    StepKeepsInv(s, ClientEvent(c, ReadTable));
    WaiterExecutes(Apply(s, ClientEvent(c, ReadTable)), c, w);
    After(s, ClientEvent(c, ReadTable), w);
  }

  /** There is always a task that nobody has asked for. */
  lemma {:induction false} FreshTask(tasks: set<TaskId>) returns (task: TaskId)
    ensures forall t <- tasks :: |t| < |task|
  {
    task := "t";
    if t :| t in tasks {
      task := FreshTask(tasks - {t});
      if |t| >= |task| { task := t + "t"; }
    }
  }

  /** A new call for a task of its own finds the worker and takes the token. */
  lemma NewCallExecutes(s: State, w: nat)
    requires Inv(s) && Ready(s, w) && Registered(s, w) && s.wlock.None?
    ensures CanExecute(s, w)
  {
    var task := FreshTask(s.workers[w].outChans.Keys);
    var c, call := |s.clients|, CallRun(s.workers[w].key, task);
    StepKeepsInv(s, call);
    var t := Apply(s, call);
    StepKeepsInv(t, ClientEvent(c, ReadRegistry));
    FinderExecutes(Apply(t, ClientEvent(c, ReadRegistry)), c, w);
    After(t, ClientEvent(c, ReadRegistry), w);
    After(s, call, w);
  }

  lemma ReadyExecutes(s: State, w: nat)
    requires Inv(s) && Ready(s, w) && Registered(s, w)
    ensures CanExecute(s, w)
  {
    if s.wlock.None? {
      NewCallExecutes(s, w);
    } else {
      var d := s.wlock.value;
      assert ClientOk(s, d);
      StepKeepsInv(s, ClientEvent(d, CountWorker));
      NewCallExecutes(Apply(s, ClientEvent(d, CountWorker)), w);
      After(s, ClientEvent(d, CountWorker), w);
    }
  }

  lemma ReturningExecutes(s: State, w: nat)
    requires Inv(s) && Registered(s, w) && (s.workers[w].listener.ReturningToken? || s.workers[w].listener.FirstToken?)
    requires !LastExecution(s, w)
    ensures CanExecute(s, w)
  {
    assert Tokens(s, w) == 1;
    var e := ListenerEvent(w, if s.workers[w].listener.FirstToken? then SendFirstToken else ReturnToken);
    StepKeepsInv(s, e);
    ReadyExecutes(Apply(s, e), w);
    After(s, e, w);
  }

  lemma FinishingExecutes(s: State, w: nat)
    requires Inv(s) && Registered(s, w) && s.workers[w].listener.Finishing? && !LastExecution(s, w)
    ensures CanExecute(s, w)
  {
    StepKeepsInv(s, ListenerEvent(w, Finish));
    ReturningExecutes(Apply(s, ListenerEvent(w, Finish)), w);
    After(s, ListenerEvent(w, Finish), w);
  }

  lemma SendingExecutes(s: State, w: nat)
    requires Inv(s) && Registered(s, w) && s.workers[w].listener.Sending? && !LastExecution(s, w)
    ensures CanExecute(s, w)
  {
    assert WorkerOk(s, w) && ChanOk(s, s.workers[w].listener.ch);
    StepKeepsInv(s, ListenerEvent(w, SendResult));
    FinishingExecutes(Apply(s, ListenerEvent(w, SendResult)), w);
    After(s, ListenerEvent(w, SendResult), w);
  }

  lemma LookingUpExecutes(s: State, w: nat)
    requires Inv(s) && Registered(s, w) && s.workers[w].listener.LookingUp? && !LastExecution(s, w)
    ensures CanExecute(s, w)
  {
    var t := Apply(s, ListenerEvent(w, FindOutChan));
    StepKeepsInv(s, ListenerEvent(w, FindOutChan));
    if t.workers[w].listener.Sending? { SendingExecutes(t, w); } else { FinishingExecutes(t, w); }
    After(s, ListenerEvent(w, FindOutChan), w);
  }

  lemma SelectExecutes(s: State, w: nat)
    requires Inv(s) && Registered(s, w) && s.workers[w].listener.Select? && s.workers[w].broken == 0
    ensures CanExecute(s, w)
  {
    assert Tokens(s, w) == 1;
    if s.workers[w].signal {
      ReadyExecutes(s, w);
    } else {
      assert Holders(s.clients, w) != {};
      var c: nat :| c in Holders(s.clients, w);
      HolderExecutes(s, c, w);
    }
  }

  // ---------- Workers that cannot ----------

  /** The listener has left, its token was taken by `Break`, or it is about to leave. */
  ghost predicate Finished(s: State, w: nat) {
    w < |s.workers| && (Left(s, w) || Broken(s, w) || LastExecution(s, w))
  }

  lemma LastExecutionStep(s: State, e: Event, w: nat)
    requires Enabled(s, e) && w < |s.workers| && LastExecution(s, w)
    ensures w < |Apply(s, e).workers| && (LastExecution(Apply(s, e), w) || Left(Apply(s, e), w))
    ensures Idle(s, Apply(s, e), w)
  {
    match e
    case ListenerEvent(v, step) => LastExecutionListens(s, v, step, w);
    case ClientEvent(c, step) =>
    case _ => OthersChange(s, e);
  }

  lemma LastExecutionListens(s: State, v: nat, step: ListenerStep, w: nat)
    requires ListenerEnabled(s, v, step) && w < |s.workers| && LastExecution(s, w)
    ensures var t := ListenerApply(s, v, step);
      w < |t.workers| && (LastExecution(t, w) || Left(t, w)) && Idle(s, t, w)
  {
  }

  lemma {:induction false} FinishedForever(s: State, es: seq<Event>, t: State, w: nat)
    requires Inv(s) && Leads(s, es, t) && Finished(s, w)
    ensures Idle(s, t, w)
    decreases |es|
  {
    if es != [] {
      var u := Apply(s, es[0]);
      if Left(s, w) { LeftStep(s, es[0], w); }
      else if Broken(s, w) { BrokenStep(s, es[0], w); }
      else { LastExecutionStep(s, es[0], w); }
      StepKeepsInv(s, es[0]);
      FinishedForever(u, es[1..], t, w);
    }
  }

  /** In every reachable state a registered worker can still execute a work exactly when its listener has not
      left, `Break` has not taken its token, and it is not returning from an execution that was interrupted. */
  lemma ExecutesExactly(s: State, w: nat)
    requires Reachable(s) && Registered(s, w)
    ensures CanExecute(s, w) <==> !Left(s, w) && s.workers[w].broken == 0 && !LastExecution(s, w)
  {
    ReachableInv(s);
    if Finished(s, w) {
      forall es, t | Leads(s, es, t) ensures Idle(s, t, w) { FinishedForever(s, es, t, w); }
    } else {
      match s.workers[w].listener
      case FirstToken => ReturningExecutes(s, w);
      case Select => SelectExecutes(s, w);
      case Starting(_) => RunningExecutes(s, w);
      case Running(_) => RunningExecutes(s, w);
      case LookingUp(_, _) => LookingUpExecutes(s, w);
      case Sending(_, _, _) => SendingExecutes(s, w);
      case Finishing(_) => FinishingExecutes(s, w);
      case ReturningToken(_) => ReturningExecutes(s, w);
      case _ =>
    }
  }

  // ---------- Workers that nobody can find ----------

  /** The client can still hand a work over to `w`. */
  predicate At(client: Client, w: nat) {
    match client.pc
    case Counting(v) => v == w
    case FindChan(v) => v == w
    case AwaitToken(v) => v == w
    case _ => Holds(client, w)
  }

  ghost predicate Deserted(s: State, w: nat) {
    && w < |s.workers| && !Registered(s, w)
    && !s.workers[w].listener.Starting? && !s.workers[w].listener.Running?
    && forall c: nat | c < |s.clients| :: !At(s.clients[c], w)
  }

  lemma ClientDeserts(s: State, c: nat, step: ClientStep, w: nat)
    requires Inv(s) && ClientEnabled(s, c, step) && Deserted(s, w)
    ensures var t := ClientApply(s, c, step);
      && (forall d: nat | d < |t.clients| :: !At(t.clients[d], w)) && t.log == s.log
      && w < |t.workers| && t.workers[w].listener == s.workers[w].listener
  {
    var t := ClientApply(s, c, step);
    assert t.clients == s.clients[c := t.clients[c]] && !At(s.clients[c], w) && ClientOk(s, c);
  }

  lemma ListenerDeserts(s: State, v: nat, step: ListenerStep, w: nat)
    requires ListenerEnabled(s, v, step) && Deserted(s, w)
    ensures var t := ListenerApply(s, v, step);
      && t.clients == s.clients && Idle(s, t, w)
      && w < |t.workers| && !t.workers[w].listener.Starting? && !t.workers[w].listener.Running?
  {
  }

  lemma DesertedStep(s: State, e: Event, w: nat)
    requires Inv(s) && Enabled(s, e) && Deserted(s, w)
    ensures Deserted(Apply(s, e), w) && Idle(s, Apply(s, e), w)
  {
    RegisteredStep(s, e, w);
    match e
    case ClientEvent(c, step) => ClientDeserts(s, c, step, w);
    case ListenerEvent(v, step) => ListenerDeserts(s, v, step, w);
    case _ => OthersChange(s, e);
  }

  /** A worker that is not registered, that no call has found or made and not yet left again, and that has no
      work in hand, never executes anything again. */
  lemma {:induction false} DesertedForever(s: State, es: seq<Event>, t: State, w: nat)
    requires Inv(s) && Leads(s, es, t) && Deserted(s, w)
    ensures Deserted(t, w) && Idle(s, t, w)
    decreases |es|
  {
    if es != [] {
      DesertedStep(s, es[0], w);
      StepKeepsInv(s, es[0]);
      DesertedForever(Apply(s, es[0]), es[1..], t, w);
    }
  }
}
