/** When every result is sent: if calls of `Run` for one task on one worker do not overlap. */
module WorkerDelivery {
  import opened WorkerProtocol
  import opened WorkerInvariant
  import opened WorkerStep

  /** From taking the token, or finding a channel, until the table entry is deleted. */
  predicate Active(client: Client, w: nat) {
    match client.pc
    case Register(v) => v == w
    case HandOver(v, _) => v == w
    case AwaitResult(v, _) => v == w
    case Forget(v, _, _) => v == w
    case _ => false
  }

  predicate Overlap(c: Client, d: Client, w: nat) {
    Active(c, w) && Active(d, w) && c.task == d.task
  }

  /** No two active calls are for one task on one worker. */
  ghost predicate Serial(s: State) {
    forall c: nat, d: nat, w: nat |
      c < |s.clients| && d < |s.clients| && Overlap(s.clients[c], s.clients[d], w) :: c == d
  }

  ghost predicate AlwaysSerial(s: State, es: seq<Event>)
    decreases |es|
  {
    Serial(s) && (es == [] || (Enabled(s, es[0]) && AlwaysSerial(Apply(s, es[0]), es[1..])))
  }

  /** A work was received and its result channel not yet looked up. */
  predicate Pending(l: Listener) { l.Starting? || l.Running? || l.LookingUp? }

  predicate PendingFor(s: State, w: nat, task: TaskId) {
    w < |s.workers| && Pending(s.workers[w].listener) && s.workers[w].listener.work.task == task
  }

  predicate WorkerDelivers(s: State, w: nat)
    requires w < |s.workers|
  {
    Pending(s.workers[w].listener) ==> s.workers[w].listener.work.task in s.workers[w].outChans
  }

  predicate ClientDelivers(s: State, c: nat)
    requires c < |s.clients|
  {
    var task := s.clients[c].task;
    match s.clients[c].pc
    case HandOver(w, _) => w < |s.workers| && (s.workers[w].listener.Leaving() || task in s.workers[w].outChans)
    case AwaitResult(w, ch) => PendingFor(s, w, task) ==> s.workers[w].listener.work.chan == ch
    case Forget(w, _, _) => !PendingFor(s, w, task)
    case _ => true
  }

  /** The result of an executed work was sent, or its listener still has it in hand. */
  predicate ChanDelivers(s: State, ch: nat)
    requires ch < |s.chans|
  {
    s.chans[ch].executed && s.chans[ch].sent == [] ==>
      && s.chans[ch].worker < |s.workers|
      && var l := s.workers[s.chans[ch].worker].listener;
         (l.LookingUp? || l.Sending?) && l.work.chan == ch
  }

  predicate Delivers(s: State) {
    && (forall w: nat | w < |s.workers| :: WorkerDelivers(s, w))
    && (forall c: nat | c < |s.clients| :: ClientDelivers(s, c))
    && (forall ch: nat | ch < |s.chans| :: ChanDelivers(s, ch))
  }

  // ---------- Steps of a client ----------

  lemma ClientDeliversWorker(s: State, c: nat, step: ClientStep, w: nat)
    requires ClientEnabled(s, c, step) && w < |s.workers| && WorkerDelivers(s, w)
    requires step.HandWork? ==> ClientDelivers(s, c)
    requires step.DeleteEntry? ==> ClientDelivers(s, c)
    ensures WorkerDelivers(ClientApply(s, c, step), w)
  {
  }

  lemma ClientDeliversItself(s: State, c: nat, step: ClientStep)
    requires Inv(s) && ClientEnabled(s, c, step) && ClientDelivers(s, c)
    ensures ClientDelivers(ClientApply(s, c, step), c)
  {
    var pc := s.clients[c].pc;
    assert ClientOk(s, c);
    if step.ReadTable? {
      assert WorkerOk(s, pc.w);
    }
    if step.ReceiveResult? {
      assert WorkerOk(s, pc.w);
      assert ChanOk(s, pc.ch);
    }
  }

  lemma ClientDeliversOther(s: State, c: nat, step: ClientStep, d: nat)
    requires ClientEnabled(s, c, step) && d < |s.clients| && d != c && ClientDelivers(s, d)
    requires forall w: nat :: !Overlap(s.clients[c], s.clients[d], w)
    ensures ClientDelivers(ClientApply(s, c, step), d)
  {
    var pc, qc := s.clients[c].pc, s.clients[d].pc;
    if qc.HandOver? || qc.AwaitResult? || qc.Forget? {
      assert !Overlap(s.clients[c], s.clients[d], qc.w);
    }
  }

  lemma ClientDeliversChan(s: State, c: nat, step: ClientStep, ch: nat)
    requires Inv(s) && ClientEnabled(s, c, step) && ch < |ClientApply(s, c, step).chans|
    requires ch < |s.chans| ==> ChanDelivers(s, ch)
    ensures ChanDelivers(ClientApply(s, c, step), ch)
  {
    var pc := s.clients[c].pc;
    assert ClientOk(s, c);
    if step.ReceiveResult? {
      assert ChanOk(s, pc.ch);
    }
  }

  lemma ClientKeepsDelivery(s: State, c: nat, step: ClientStep)
    requires Inv(s) && Delivers(s) && Serial(s) && ClientEnabled(s, c, step)
    ensures Delivers(ClientApply(s, c, step))
  {
    var t := ClientApply(s, c, step);
    forall w: nat | w < |t.workers| ensures WorkerDelivers(t, w) {
      if w < |s.workers| { ClientDeliversWorker(s, c, step, w); }
    }
    forall d: nat | d < |t.clients| ensures ClientDelivers(t, d) {
      if d == c { ClientDeliversItself(s, c, step); } else { ClientDeliversOther(s, c, step, d); }
    }
    forall ch: nat | ch < |t.chans| ensures ChanDelivers(t, ch) { ClientDeliversChan(s, c, step, ch); }
  }

  // ---------- Steps of a listener ----------

  lemma ListenerDeliversWorker(s: State, v: nat, step: ListenerStep, w: nat)
    requires ListenerEnabled(s, v, step) && w < |s.workers| && WorkerDelivers(s, w)
    ensures WorkerDelivers(ListenerApply(s, v, step), w)
  {
  }

  lemma ListenerDeliversClient(s: State, v: nat, step: ListenerStep, d: nat)
    requires ListenerEnabled(s, v, step) && d < |s.clients| && ClientDelivers(s, d)
    ensures ClientDelivers(ListenerApply(s, v, step), d)
  {
  }

  lemma ListenerDeliversChan(s: State, v: nat, step: ListenerStep, ch: nat)
    requires ListenerEnabled(s, v, step) && WorkerOk(s, v) && WorkerDelivers(s, v)
    requires ch < |s.chans| && ChanDelivers(s, ch)
    ensures ChanDelivers(ListenerApply(s, v, step), ch)
  {
  }

  lemma ListenerKeepsDelivery(s: State, v: nat, step: ListenerStep)
    requires Inv(s) && Delivers(s) && ListenerEnabled(s, v, step)
    ensures Delivers(ListenerApply(s, v, step))
  {
    var t := ListenerApply(s, v, step);
    assert WorkerOk(s, v);
    forall w: nat | w < |t.workers| ensures WorkerDelivers(t, w) { ListenerDeliversWorker(s, v, step, w); }
    forall d: nat | d < |t.clients| ensures ClientDelivers(t, d) { ListenerDeliversClient(s, v, step, d); }
    forall ch: nat | ch < |t.chans| ensures ChanDelivers(t, ch) { ListenerDeliversChan(s, v, step, ch); }
  }

  lemma StepKeepsDelivery(s: State, e: Event)
    requires Inv(s) && Delivers(s) && Serial(s) && Enabled(s, e)
    ensures Delivers(Apply(s, e))
  {
    match e
    case ClientEvent(c, step) => ClientKeepsDelivery(s, c, step);
    case ListenerEvent(w, step) => ListenerKeepsDelivery(s, w, step);
    case _ => OthersKeepDelivery(s, e);
  }

  lemma OthersKeepDelivery(s: State, e: Event)
    requires Delivers(s) && Enabled(s, e) && (e.CallRun? || e.CallBreak? || e.BreakerEvent?)
    ensures Delivers(Apply(s, e))
  {
    var t := Apply(s, e);
    OthersChange(s, e);
    forall w: nat | w < |t.workers| ensures WorkerDelivers(t, w) { assert WorkerDelivers(s, w); }
    forall d: nat | d < |t.clients| ensures ClientDelivers(t, d) { assert d < |s.clients| ==> ClientDelivers(s, d); }
    forall ch: nat | ch < |t.chans| ensures ChanDelivers(t, ch) { assert ChanDelivers(s, ch); }
  }

  lemma {:induction false} SerialKeepsDelivery(s: State, es: seq<Event>, t: State)
    requires Inv(s) && Delivers(s) && Leads(s, es, t) && AlwaysSerial(s, es)
    ensures Inv(t) && Delivers(t)
    decreases |es|
  {
    if es != [] {
      StepKeepsDelivery(s, es[0]);
      StepKeepsInv(s, es[0]);
      SerialKeepsDelivery(Apply(s, es[0]), es[1..], t);
    }
  }

  /** In a run in which calls for one task on one worker never overlap from taking the token to the reply,
      every result is sent: a listener that looks up the channel of its work finds it, and every execution's
      result has been sent once into the channel of its caller, or is still in the listener's hands. */
  lemma SerialRunsSend(es: seq<Event>, t: State)
    requires Leads(Init(), es, t) && AlwaysSerial(Init(), es)
    ensures forall w: nat | ListenerEnabled(t, w, FindOutChan) ::
      t.workers[w].listener.work.task in t.workers[w].outChans
    ensures forall i: nat | i < |t.log| ::
      && t.log[i].chan < |t.chans| && t.log[i].worker < |t.workers|
      && (|t.chans[t.log[i].chan].sent| == 1 || InHand(t, i))
  {
    assert Leads(Init(), [], Init());
    ReachableInv(Init());
    SerialKeepsDelivery(Init(), es, t);
    forall w: nat | ListenerEnabled(t, w, FindOutChan)
      ensures t.workers[w].listener.work.task in t.workers[w].outChans
    {
      assert WorkerDelivers(t, w);
    }
    forall i: nat | i < |t.log|
      ensures t.log[i].chan < |t.chans| && t.log[i].worker < |t.workers|
      ensures |t.chans[t.log[i].chan].sent| == 1 || InHand(t, i)
    {
      assert MadeFor(t, t.log[i].chan, t.log[i].worker, t.log[i].task);
      assert ChanOk(t, t.log[i].chan) && ChanDelivers(t, t.log[i].chan);
    }
  }

  /** The listener has executed the i-th work of the history and not yet sent its result. */
  predicate InHand(s: State, i: nat)
    requires i < |s.log| && s.log[i].worker < |s.workers|
  {
    var l := s.workers[s.log[i].worker].listener;
    (l.LookingUp? || l.Sending?) && l.work.chan == s.log[i].chan
  }
}
