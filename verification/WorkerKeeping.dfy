/**
 When no result is forgotten: if calls for one task on one worker do not overlap from reading the table of
 result channels to the reply, a result stays the entry of its task until a call takes it or the worker ends.
 */
module WorkerKeeping {
  import opened Options
  import opened WorkerProtocol
  import opened WorkerInvariant
  import opened WorkerStep
  import opened WorkerDelivery
  import opened WorkerResults

  /** From reading the table of channels until the reply. */
  predicate Calling(client: Client, w: nat) {
    match client.pc
    case AwaitToken(v) => v == w
    case _ => Active(client, w)
  }

  /** No two such calls are for one task on one worker. */
  ghost predicate Exclusive(s: State) {
    forall c: nat, d: nat, w: nat |
      c < |s.clients| && d < |s.clients| && Calling(s.clients[c], w) && Calling(s.clients[d], w)
      && s.clients[c].task == s.clients[d].task :: c == d
  }

  ghost predicate AlwaysExclusive(s: State, es: seq<Event>)
    decreases |es|
  {
    Exclusive(s) && (es == [] || (Enabled(s, es[0]) && AlwaysExclusive(Apply(s, es[0]), es[1..])))
  }

  /** The listener has emptied its table. */
  predicate Purged(s: State, w: nat) {
    w < |s.workers| && (s.workers[w].listener.Uncounting? || s.workers[w].listener.Exited?)
  }

  predicate Has(s: State, w: nat, task: TaskId, ch: nat) {
    w < |s.workers| && task in s.workers[w].outChans && s.workers[w].outChans[task] == ch
  }

  predicate ClientKeeps(s: State, c: nat)
    requires c < |s.clients|
  {
    var task := s.clients[c].task;
    match s.clients[c].pc
    case AwaitToken(w) => w < |s.workers| && task !in s.workers[w].outChans
    case Register(w) => w < |s.workers| && task !in s.workers[w].outChans
    case HandOver(w, ch) => Purged(s, w) || Has(s, w, task, ch)
    case AwaitResult(w, ch) => Purged(s, w) || Has(s, w, task, ch)
    case Forget(w, ch, _) => Purged(s, w) || Has(s, w, task, ch)
    case _ => true
  }

  predicate WorkerKeeps(s: State, w: nat)
    requires w < |s.workers|
  {
    var l := s.workers[w].listener;
    l.Starting? || l.Running? || l.LookingUp? || l.Sending? ==> Has(s, w, l.work.task, l.work.chan)
  }

  predicate ChanKeeps(s: State, ch: nat)
    requires ch < |s.chans|
  {
    Unreceived(s, ch) ==> Purged(s, s.chans[ch].worker) || IsEntry(s, ch)
  }

  /** Who has received the result of a channel is about to return it, or has. */
  predicate Returns(s: State, c: nat, ch: nat) {
    c < |s.clients| &&
    match s.clients[c].pc
    case Forget(_, d, _) => d == ch
    case Replied(_, d, reply) => d == ch && reply.Executed?
    case _ => false
  }

  predicate ReceiverReturns(s: State, ch: nat)
    requires ch < |s.chans|
  {
    s.chans[ch].receivers != [] ==> Returns(s, s.chans[ch].receivers[0], ch)
  }

  ghost predicate Keeps(s: State) {
    && (forall c: nat | c < |s.clients| :: ClientKeeps(s, c))
    && (forall w: nat | w < |s.workers| :: WorkerKeeps(s, w))
    && (forall ch: nat | ch < |s.chans| :: ChanKeeps(s, ch))
    && (forall ch: nat | ch < |s.chans| :: ReceiverReturns(s, ch))
  }

  // ---------- Steps of a client ----------

  lemma ClientKeepsItself(s: State, c: nat, step: ClientStep)
    requires Inv(s) && ClientEnabled(s, c, step) && ClientKeeps(s, c)
    ensures ClientKeeps(ClientApply(s, c, step), c)
  {
    assert ClientOk(s, c);
  }

  lemma ClientKeepsOther(s: State, c: nat, step: ClientStep, d: nat)
    requires ClientEnabled(s, c, step) && ClientOk(s, c) && d < |s.clients| && d != c && ClientKeeps(s, d)
    requires forall w: nat | Calling(s.clients[c], w) && Calling(s.clients[d], w) ::
        s.clients[c].task != s.clients[d].task
    ensures ClientKeeps(ClientApply(s, c, step), d)
  {
    var pc, qc := s.clients[c].pc, s.clients[d].pc;
    if step.RegisterChan? || step.DeleteEntry? {
      assert Calling(s.clients[c], pc.w);
      if qc.AwaitToken? || qc.Register? || qc.HandOver? || qc.AwaitResult? || qc.Forget? {
        assert Calling(s.clients[d], qc.w);
      }
    }
  }

  lemma ClientKeepsWork(s: State, c: nat, step: ClientStep, w: nat)
    requires Inv(s) && ClientEnabled(s, c, step) && w < |s.workers| && WorkerKeeps(s, w) && ClientKeeps(s, c)
    ensures WorkerKeeps(ClientApply(s, c, step), w)
  {
    assert ClientOk(s, c) && WorkerOk(s, w);
    if step.RegisterChan? || step.DeleteEntry? || step.HandWork? {
      TableStepKeepsWork(s, c, step, w);
    } else {
      OtherStepKeepsWork(s, c, step, w);
    }
  }

  lemma TableStepKeepsWork(s: State, c: nat, step: ClientStep, w: nat)
    requires ClientEnabled(s, c, step) && w < |s.workers| && WorkerKeeps(s, w) && ClientKeeps(s, c)
    requires step.RegisterChan? || step.DeleteEntry? || step.HandWork?
    requires ClientOk(s, c) && WorkerOk(s, w)
    ensures WorkerKeeps(ClientApply(s, c, step), w)
  {
  }

  lemma OtherStepKeepsWork(s: State, c: nat, step: ClientStep, w: nat)
    requires ClientEnabled(s, c, step) && w < |s.workers| && WorkerKeeps(s, w)
    requires !step.RegisterChan? && !step.DeleteEntry? && !step.HandWork?
    ensures WorkerKeeps(ClientApply(s, c, step), w)
  {
  }

  lemma ClientKeepsChan(s: State, c: nat, step: ClientStep, ch: nat)
    requires Inv(s) && ClientEnabled(s, c, step) && ch < |s.chans| && ChanKeeps(s, ch) && ClientKeeps(s, c)
    ensures ch < |ClientApply(s, c, step).chans| && ChanKeeps(ClientApply(s, c, step), ch)
  {
    assert ClientOk(s, c) && ChanOk(s, ch);
  }

  lemma ClientKeepsReceiver(s: State, c: nat, step: ClientStep, ch: nat)
    requires Inv(s) && ClientEnabled(s, c, step) && ch < |s.chans| && ReceiverReturns(s, ch)
    ensures ch < |ClientApply(s, c, step).chans| && ReceiverReturns(ClientApply(s, c, step), ch)
  {
    assert ClientOk(s, c) && ChanOk(s, ch);
  }

  lemma ClientKeepsAll(s: State, c: nat, step: ClientStep)
    requires Inv(s) && Keeps(s) && Exclusive(s) && ClientEnabled(s, c, step)
    ensures Keeps(ClientApply(s, c, step))
  {
    var t := ClientApply(s, c, step);
    assert ClientOk(s, c);
    forall d: nat | d < |t.clients| ensures ClientKeeps(t, d) {
      if d == c { ClientKeepsItself(s, c, step); } else { ClientKeepsOther(s, c, step, d); }
    }
    forall w: nat | w < |t.workers| ensures WorkerKeeps(t, w) {
      if w < |s.workers| { ClientKeepsWork(s, c, step, w); }
    }
    forall ch: nat | ch < |t.chans| ensures ChanKeeps(t, ch) && ReceiverReturns(t, ch) {
      if ch < |s.chans| {
        ClientKeepsChan(s, c, step, ch);
        ClientKeepsReceiver(s, c, step, ch);
      }
    }
  }

  // ---------- Steps of a listener ----------

  lemma ListenerKeepsCall(s: State, v: nat, step: ListenerStep, d: nat)
    requires ListenerEnabled(s, v, step) && d < |s.clients| && ClientKeeps(s, d)
    ensures ClientKeeps(ListenerApply(s, v, step), d)
  {
  }

  lemma ListenerKeepsWork(s: State, v: nat, step: ListenerStep, w: nat)
    requires ListenerEnabled(s, v, step) && w < |s.workers| && WorkerKeeps(s, w)
    ensures WorkerKeeps(ListenerApply(s, v, step), w)
  {
  }

  lemma ListenerKeepsChan(s: State, v: nat, step: ListenerStep, ch: nat)
    requires Inv(s) && ListenerEnabled(s, v, step) && ch < |s.chans| && ChanKeeps(s, ch) && WorkerKeeps(s, v)
    ensures ch < |ListenerApply(s, v, step).chans| && ChanKeeps(ListenerApply(s, v, step), ch)
  {
    assert ChanOk(s, ch) && WorkerOk(s, v);
    if Posts(step) { PostKeepsChan(s, v, step, ch); } else { QuietKeepsChan(s, v, step, ch); }
  }

  lemma PostKeepsChan(s: State, v: nat, step: ListenerStep, ch: nat)
    requires ListenerEnabled(s, v, step) && Posts(step) && ch < |s.chans| && ChanKeeps(s, ch) && WorkerKeeps(s, v)
    requires ChanOk(s, ch) && WorkerOk(s, v)
    ensures ch < |ListenerApply(s, v, step).chans| && ChanKeeps(ListenerApply(s, v, step), ch)
  {
  }

  lemma QuietKeepsChan(s: State, v: nat, step: ListenerStep, ch: nat)
    requires ListenerEnabled(s, v, step) && !Posts(step) && ch < |s.chans| && ChanKeeps(s, ch) && ChanOk(s, ch)
    ensures ch < |ListenerApply(s, v, step).chans| && ChanKeeps(ListenerApply(s, v, step), ch)
  {
  }

  lemma ListenerKeepsReceiver(s: State, v: nat, step: ListenerStep, ch: nat)
    requires ListenerEnabled(s, v, step) && ch < |s.chans| && ReceiverReturns(s, ch)
    ensures ch < |ListenerApply(s, v, step).chans| && ReceiverReturns(ListenerApply(s, v, step), ch)
  {
  }

  lemma ListenerKeepsAll(s: State, v: nat, step: ListenerStep)
    requires Inv(s) && Keeps(s) && ListenerEnabled(s, v, step)
    ensures Keeps(ListenerApply(s, v, step))
  {
    var t := ListenerApply(s, v, step);
    forall d: nat | d < |t.clients| ensures ClientKeeps(t, d) { ListenerKeepsCall(s, v, step, d); }
    forall w: nat | w < |t.workers| ensures WorkerKeeps(t, w) { ListenerKeepsWork(s, v, step, w); }
    forall ch: nat | ch < |t.chans| ensures ChanKeeps(t, ch) && ReceiverReturns(t, ch) {
      ListenerKeepsChan(s, v, step, ch);
      ListenerKeepsReceiver(s, v, step, ch);
    }
  }

  lemma OthersKeepAll(s: State, e: Event)
    requires Keeps(s) && Enabled(s, e) && (e.CallRun? || e.CallBreak? || e.BreakerEvent?)
    ensures Keeps(Apply(s, e))
  {
    var t := Apply(s, e);
    OthersChange(s, e);
    forall d: nat | d < |t.clients| ensures ClientKeeps(t, d) { assert d < |s.clients| ==> ClientKeeps(s, d); }
    forall w: nat | w < |t.workers| ensures WorkerKeeps(t, w) { assert WorkerKeeps(s, w); }
    forall ch: nat | ch < |t.chans| ensures ChanKeeps(t, ch) && ReceiverReturns(t, ch) {
      assert ChanKeeps(s, ch) && ReceiverReturns(s, ch);
    }
  }

  lemma ExclusiveIsSerial(s: State)
    requires Exclusive(s)
    ensures Serial(s)
  {
    forall c: nat, d: nat, w: nat | c < |s.clients| && d < |s.clients| && Overlap(s.clients[c], s.clients[d], w)
      ensures c == d
    {
      assert Calling(s.clients[c], w) && Calling(s.clients[d], w);
    }
  }

  lemma StepKeepsAll(s: State, e: Event)
    requires Inv(s) && Keeps(s) && Exclusive(s) && Enabled(s, e)
    ensures Keeps(Apply(s, e))
  {
    match e
    case ClientEvent(c, step) => ClientKeepsAll(s, c, step);
    case ListenerEvent(w, step) => ListenerKeepsAll(s, w, step);
    case _ => OthersKeepAll(s, e);
  }

  lemma {:induction false} ExclusiveKeeps(s: State, es: seq<Event>, t: State)
    requires Inv(s) && Keeps(s) && Leads(s, es, t) && AlwaysExclusive(s, es)
    ensures Inv(t) && Keeps(t) && AlwaysSerial(s, es)
    decreases |es|
  {
    ExclusiveIsSerial(s);
    if es != [] {
      StepKeepsAll(s, es[0]);
      StepKeepsInv(s, es[0]);
      ExclusiveKeeps(Apply(s, es[0]), es[1..], t);
    }
  }

  /** In such a run the result of every execution is still in the listener's hands, was received by one call
      that returns it, or is in its channel, and that is the entry of its task until the worker has emptied
      its table. */
  lemma ExclusiveCallsKeepResults(es: seq<Event>, t: State, i: nat)
    requires Leads(Init(), es, t) && AlwaysExclusive(Init(), es) && i < |t.log|
    ensures var x := t.log[i];
      && x.worker < |t.workers| && x.chan < |t.chans|
      && (|| InHand(t, i)
          || (exists c: nat :: t.chans[x.chan].receivers == [c] && Returns(t, c, x.chan))
          || (Unreceived(t, x.chan) && (IsEntry(t, x.chan) || Purged(t, x.worker))))
  {
    assert Leads(Init(), [], Init());
    ReachableInv(Init());
    ExclusiveKeeps(Init(), es, t);
    SerialRunsSend(es, t);
    var ch := t.log[i].chan;
    assert MadeFor(t, ch, t.log[i].worker, t.log[i].task) && ChanOk(t, ch);
    assert ChanKeeps(t, ch) && ReceiverReturns(t, ch);
    if t.chans[ch].receivers != [] { assert t.chans[ch].receivers == [t.chans[ch].receivers[0]]; }
  }

  /** So the next call for the task gets it and executes nothing. */
  lemma NextCallGetsIt(es: seq<Event>, t: State, c: nat, ch: nat)
    requires Leads(Init(), es, t) && AlwaysExclusive(Init(), es)
    requires Unreceived(t, ch) && !Purged(t, t.chans[ch].worker)
    requires Comes(t, c, ch) && t.clients[c].pc.FindChan?
    ensures ClientEnabled(t, c, ReadTable)
    ensures var u := ClientApply(t, c, ReadTable);
      u.clients[c].pc == AwaitResult(t.chans[ch].worker, ch) && ClientEnabled(u, c, ReceiveResult) && u.log == t.log
  {
    assert Leads(Init(), [], Init());
    ReachableInv(Init());
    ExclusiveKeeps(Init(), es, t);
    assert ChanKeeps(t, ch);
  }
}
