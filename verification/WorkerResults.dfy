/** What becomes of a result that was sent and not received: when a call of `Run` can still get it, exactly. */
module WorkerResults {
  import opened Options
  import opened WorkerProtocol
  import opened WorkerInvariant
  import opened WorkerStep
  import opened WorkerRegistry

  /** There is a result in the channel. */
  predicate Unreceived(s: State, ch: nat) {
    ch < |s.chans| && s.chans[ch].buffer.Some?
  }

  /** The table of the channel's worker has the channel under its task. */
  predicate IsEntry(s: State, ch: nat) {
    ch < |s.chans| &&
    var chan := s.chans[ch];
    chan.worker < |s.workers| && chan.task in s.workers[chan.worker].outChans
    && s.workers[chan.worker].outChans[chan.task] == ch
  }

  predicate Awaits(s: State, c: nat, ch: nat) {
    c < |s.clients| && s.clients[c].pc.AwaitResult? && s.clients[c].pc.ch == ch
  }

  ghost predicate Awaited(s: State, ch: nat) {
    exists c: nat :: Awaits(s, c, ch)
  }

  /** The client has found or made the worker of the channel, asks for its task and has not read the table. */
  predicate Comes(s: State, c: nat, ch: nat) {
    && c < |s.clients| && ch < |s.chans| && s.clients[c].task == s.chans[ch].task
    && (s.clients[c].pc.FindChan? || s.clients[c].pc.Counting?) && s.clients[c].pc.w == s.chans[ch].worker
  }

  /** A call waits for it, or a call will find it: one on its way, or a new one that finds the worker. */
  ghost predicate Obtainable(s: State, ch: nat) {
    ch < |s.chans| && (Awaited(s, ch) || (IsEntry(s, ch) &&
      (Registered(s, s.chans[ch].worker) || exists c: nat :: Comes(s, c, ch))))
  }

  /** Some continuation hands the result to a call. */
  ghost predicate CanBeReceived(s: State, ch: nat) {
    exists es, t :: Leads(s, es, t) && ch < |t.chans| && t.chans[ch].receivers != []
  }

  // ---------- Results that can be received ----------

  lemma After(s: State, e: Event, ch: nat)
    requires Enabled(s, e) && CanBeReceived(Apply(s, e), ch)
    ensures CanBeReceived(s, ch)
  {
    var es, t :| Leads(Apply(s, e), es, t) && ch < |t.chans| && t.chans[ch].receivers != [];
    assert ([e] + es)[1..] == es;
    assert Leads(s, [e] + es, t);
  }

  lemma WaiterReceives(s: State, c: nat, ch: nat)
    requires Unreceived(s, ch) && Awaits(s, c, ch)
    ensures CanBeReceived(s, ch)
  {
    var e := ClientEvent(c, ReceiveResult);
    var t := Apply(s, e);
    assert t.chans[ch].receivers == s.chans[ch].receivers + [c];
    assert Leads(t, [], t);
    After(s, e, ch);
  }

  lemma FinderReceives(s: State, c: nat, ch: nat)
    requires Inv(s) && Unreceived(s, ch) && IsEntry(s, ch) && Comes(s, c, ch) && s.clients[c].pc.FindChan?
    ensures CanBeReceived(s, ch)
  {
    WaiterReceives(Apply(s, ClientEvent(c, ReadTable)), c, ch);
    After(s, ClientEvent(c, ReadTable), ch);
  }

  lemma ComerReceives(s: State, c: nat, ch: nat)
    requires Inv(s) && Unreceived(s, ch) && IsEntry(s, ch) && Comes(s, c, ch)
    ensures CanBeReceived(s, ch)
  {
    if s.clients[c].pc.FindChan? {
      FinderReceives(s, c, ch);
    } else {
      StepKeepsInv(s, ClientEvent(c, CountWorker));
      FinderReceives(Apply(s, ClientEvent(c, CountWorker)), c, ch);
      After(s, ClientEvent(c, CountWorker), ch);
    }
  }

  /** A new call for the task finds the worker in the registry. */
  lemma NewCallReceives(s: State, ch: nat)
    requires Inv(s) && Unreceived(s, ch) && IsEntry(s, ch) && Registered(s, s.chans[ch].worker) && s.wlock.None?
    ensures CanBeReceived(s, ch)
  {
    var c, call := |s.clients|, CallRun(s.workers[s.chans[ch].worker].key, s.chans[ch].task);
    StepKeepsInv(s, call);
    var t := Apply(s, call);
    StepKeepsInv(t, ClientEvent(c, ReadRegistry));
    FinderReceives(Apply(t, ClientEvent(c, ReadRegistry)), c, ch);
    After(t, ClientEvent(c, ReadRegistry), ch);
    After(s, call, ch);
  }

  lemma RegisteredReceives(s: State, ch: nat)
    requires Inv(s) && Unreceived(s, ch) && IsEntry(s, ch) && Registered(s, s.chans[ch].worker)
    ensures CanBeReceived(s, ch)
  {
    if s.wlock.None? {
      NewCallReceives(s, ch);
    } else {
      var d := s.wlock.value;
      assert ClientOk(s, d);
      StepKeepsInv(s, ClientEvent(d, CountWorker));
      NewCallReceives(Apply(s, ClientEvent(d, CountWorker)), ch);
      After(s, ClientEvent(d, CountWorker), ch);
    }
  }

  // ---------- Results that cannot ----------

  /** The result is in its channel and no call can get it. */
  ghost predicate Forgotten(s: State, ch: nat) {
    Unreceived(s, ch) && !Obtainable(s, ch)
  }

  /** The steps by which an entry for the channel's task is replaced or deleted. */
  predicate Removes(s: State, e: Event, ch: nat) {
    ch < |s.chans| &&
    match e
    case ClientEvent(c, step) =>
      && c < |s.clients| && s.clients[c].task == s.chans[ch].task
      && ((step.RegisterChan? && s.clients[c].pc.Register?) || (step.DeleteEntry? && s.clients[c].pc.Forget?))
      && s.clients[c].pc.w == s.chans[ch].worker
    case ListenerEvent(w, step) => step.Purge? && w == s.chans[ch].worker
    case _ => false
  }

  lemma ClientRemoves(s: State, c: nat, step: ClientStep, ch: nat)
    requires ClientEnabled(s, c, step) && ch < |s.chans| && s.chans[ch].worker < |s.workers|
    ensures ch < |ClientApply(s, c, step).chans|
    ensures IsEntry(ClientApply(s, c, step), ch) <==> IsEntry(s, ch) && !Removes(s, ClientEvent(c, step), ch)
  {
  }

  lemma ListenerRemoves(s: State, w: nat, step: ListenerStep, ch: nat)
    requires ListenerEnabled(s, w, step) && ch < |s.chans| && s.chans[ch].worker < |s.workers|
    ensures ch < |ListenerApply(s, w, step).chans|
    ensures IsEntry(ListenerApply(s, w, step), ch) <==> IsEntry(s, ch) && !Removes(s, ListenerEvent(w, step), ch)
  {
  }

  /** A channel stays the entry of its task exactly until a call registers another one for it, a call deletes
      the entry of that task, or the listener empties the table; and it never becomes the entry again. */
  lemma EntryStep(s: State, e: Event, ch: nat)
    requires Inv(s) && Enabled(s, e) && ch < |s.chans|
    ensures ch < |Apply(s, e).chans|
    ensures IsEntry(Apply(s, e), ch) <==> IsEntry(s, ch) && !Removes(s, e, ch)
  {
    assert ChanOk(s, ch);
    match e
    case ClientEvent(c, step) => ClientRemoves(s, c, step, ch);
    case ListenerEvent(w, step) => ListenerRemoves(s, w, step, ch);
    case _ => OthersChange(s, e);
  }

  lemma ClientsWait(s: State, c: nat, step: ClientStep, d: nat, ch: nat)
    requires Inv(s) && ClientEnabled(s, c, step) && Unreceived(s, ch)
    ensures Awaits(ClientApply(s, c, step), d, ch) <==>
      if d == c then step.ReadTable? && Comes(s, c, ch) && IsEntry(s, ch) else Awaits(s, d, ch)
  {
    if d == c {
      assert ClientOk(s, c);
      if step.ReadTable? { assert WorkerOk(s, s.clients[c].pc.w); }
    }
  }

  /** A call that waits for a result goes on waiting until it takes it or gives up, and one more waits exactly
      when it reads the table and finds the channel. */
  lemma WaitStep(s: State, e: Event, c: nat, ch: nat)
    requires Inv(s) && Enabled(s, e) && Unreceived(s, ch)
    ensures Awaits(Apply(s, e), c, ch) <==>
      if e.ClientEvent? && e.c == c then e.clientStep.ReadTable? && Comes(s, c, ch) && IsEntry(s, ch)
      else Awaits(s, c, ch)
  {
    match e
    case ClientEvent(d, step) => ClientsWait(s, d, step, c, ch);
    case ListenerEvent(w, step) =>
    case _ => OthersChange(s, e);
  }

  lemma ClientComes(s: State, c: nat, step: ClientStep, ch: nat)
    requires Inv(s) && ClientEnabled(s, c, step) && Unreceived(s, ch) && !Registered(s, s.chans[ch].worker)
    requires Comes(ClientApply(s, c, step), c, ch)
    ensures Comes(s, c, ch)
  {
    assert ChanOk(s, ch) && ClientOk(s, c);
  }

  lemma OtherComes(s: State, d: nat, step: ClientStep, c: nat, ch: nat)
    requires ClientEnabled(s, d, step) && d != c && ch < |s.chans|
    ensures Comes(ClientApply(s, d, step), c, ch) ==> Comes(s, c, ch)
  {
    var t := ClientApply(s, d, step);
    assert t.chans[ch].task == s.chans[ch].task && t.chans[ch].worker == s.chans[ch].worker;
  }

  lemma ListenerComes(s: State, w: nat, step: ListenerStep, c: nat, ch: nat)
    requires ListenerEnabled(s, w, step) && ch < |s.chans|
    ensures Comes(ListenerApply(s, w, step), c, ch) <==> Comes(s, c, ch)
  {
    var t := ListenerApply(s, w, step);
    assert t.clients == s.clients && t.chans[ch].task == s.chans[ch].task && t.chans[ch].worker == s.chans[ch].worker;
  }

  /** Nobody finds the way to a worker that is not registered. */
  lemma ComeStep(s: State, e: Event, c: nat, ch: nat)
    requires Inv(s) && Enabled(s, e) && Unreceived(s, ch) && !Registered(s, s.chans[ch].worker)
    requires Comes(Apply(s, e), c, ch)
    ensures Comes(s, c, ch)
  {
    match e
    case ClientEvent(d, step) =>
      if d == c { ClientComes(s, c, step, ch); } else { OtherComes(s, d, step, c, ch); }
    case ListenerEvent(w, step) => ListenerComes(s, w, step, c, ch);
    case _ => OthersChange(s, e);
  }

  lemma StaysUnreceived(s: State, e: Event, ch: nat)
    requires Inv(s) && Enabled(s, e) && Unreceived(s, ch)
    requires e.ClientEvent? && e.clientStep.ReceiveResult? ==> !Awaits(s, e.c, ch)
    ensures Unreceived(Apply(s, e), ch) && Apply(s, e).chans[ch].worker == s.chans[ch].worker
    ensures Apply(s, e).chans[ch].receivers == s.chans[ch].receivers
  {
    assert ChanOk(s, ch);
    match e
    case ClientEvent(d, step) =>
    case ListenerEvent(w, step) =>
    case _ => OthersChange(s, e);
  }

  lemma ForgottenStep(s: State, e: Event, ch: nat)
    requires Inv(s) && Enabled(s, e) && Forgotten(s, ch)
    ensures Forgotten(Apply(s, e), ch) && Apply(s, e).chans[ch].receivers == s.chans[ch].receivers
  {
    var t := Apply(s, e);
    StaysUnreceived(s, e, ch);
    EntryStep(s, e, ch);
    forall c: nat ensures !Awaits(t, c, ch) { WaitStep(s, e, c, ch); }
    if IsEntry(s, ch) {
      RegisteredStep(s, e, s.chans[ch].worker);
      forall c: nat ensures !Comes(t, c, ch) {
        if Comes(t, c, ch) { ComeStep(s, e, c, ch); }
      }
    }
  }

  lemma {:induction false} ForgottenForever(s: State, es: seq<Event>, t: State, ch: nat)
    requires Inv(s) && Leads(s, es, t) && Forgotten(s, ch)
    ensures Forgotten(t, ch) && t.chans[ch].receivers == s.chans[ch].receivers
    decreases |es|
  {
    if es != [] {
      ForgottenStep(s, es[0], ch);
      StepKeepsInv(s, es[0]);
      ForgottenForever(Apply(s, es[0]), es[1..], t, ch);
    }
  }

  /** In every reachable state a result that was sent and not received can still reach a call exactly when a
      call waits for it, or it is the entry of its task and some call can come to that worker. */
  lemma ReceivedExactly(s: State, ch: nat)
    requires Reachable(s) && Unreceived(s, ch)
    ensures CanBeReceived(s, ch) <==> Obtainable(s, ch)
  {
    ReachableInv(s);
    assert ChanOk(s, ch);
    if c: nat :| Awaits(s, c, ch) {
      WaiterReceives(s, c, ch);
    } else if IsEntry(s, ch) && Registered(s, s.chans[ch].worker) {
      RegisteredReceives(s, ch);
    } else if c: nat :| IsEntry(s, ch) && Comes(s, c, ch) {
      ComerReceives(s, c, ch);
    } else {
      forall es, t | Leads(s, es, t) ensures ch < |t.chans| && t.chans[ch].receivers == [] {
        ForgottenForever(s, es, t, ch);
      }
    }
  }
}
