/** What the worker protocol guarantees in every reachable state, and what it does not. */
module WorkerSafety {
  import opened Collections
  import opened WorkerProtocol
  import opened WorkerInvariant
  import opened WorkerStep

  // ---------- The token ----------

  /** Every worker's token is in exactly one place. */
  lemma TokenConservation(s: State, w: nat)
    requires Reachable(s) && w < |s.workers|
    ensures Bit(s.workers[w].listener.FirstToken?) + Bit(s.workers[w].signal) + |Holders(s.clients, w)|
          + Bit(s.workers[w].listener.Busy()) + s.workers[w].broken == 1
  {
    ReachableInv(s);
    assert Tokens(s, w) == 1;
  }

  /** The two sends into the token channel and the send into a result channel never block. */
  lemma SendsNeverBlock(s: State, w: nat)
    requires Reachable(s) && w < |s.workers|
    ensures s.workers[w].listener.FirstToken? ==> ListenerEnabled(s, w, SendFirstToken)
    ensures s.workers[w].listener.ReturningToken? ==> ListenerEnabled(s, w, ReturnToken)
    ensures s.workers[w].listener.Sending? ==> ListenerEnabled(s, w, SendResult)
  {
    ReachableInv(s);
    assert Tokens(s, w) == 1;
    assert WorkerOk(s, w);
    if s.workers[w].listener.Sending? { assert ChanOk(s, s.workers[w].listener.ch); }
  }

  /** While a client holds the token, no other client does and no work is executing. */
  lemma HolderExcludesWork(s: State, c: nat, w: nat)
    requires Reachable(s) && c < |s.clients| && w < |s.workers| && Holds(s.clients[c], w)
    ensures !s.workers[w].listener.Busy() && !s.workers[w].started && !s.workers[w].signal
    ensures forall d: nat | d < |s.clients| && Holds(s.clients[d], w) :: d == c
  {
    ReachableInv(s);
    assert WorkerOk(s, w);
    HolderIsAlone(s, c, w);
  }

  // ---------- Results ----------

  /** A result returned by `Run` is that of an execution of the client's own task, by the worker the
      client used, and that worker is registered under the client's own session. */
  lemma ResultRouting(s: State, c: nat)
    requires Reachable(s) && c < |s.clients|
    requires s.clients[c].pc.Replied? && s.clients[c].pc.reply.Executed?
    ensures var Replied(w, ch, Executed(res)) := s.clients[c].pc;
      && res.exec < |s.log| && s.log[res.exec] == Execution(w, s.clients[c].task, ch)
      && w < |s.workers| && s.workers[w].key == s.clients[c].key
      && ch < |s.chans| && s.chans[ch].sent == [res] && s.chans[ch].receivers == [c]
  {
    ReachableInv(s);
    assert ClientOk(s, c);
    assert ChanOk(s, s.clients[c].pc.ch);
  }

  /** No execution is returned by two different `Run`s. */
  lemma OneRunPerExecution(s: State, c: nat, d: nat)
    requires Reachable(s) && c < |s.clients| && d < |s.clients|
    requires s.clients[c].pc.Replied? && s.clients[c].pc.reply.Executed?
    requires s.clients[d].pc.Replied? && s.clients[d].pc.reply.Executed?
    requires s.clients[c].pc.reply.res.exec == s.clients[d].pc.reply.res.exec
    ensures c == d
  {
    ResultRouting(s, c);
    ResultRouting(s, d);
  }

  /** A result channel carries at most one result, is received from at most once, and is the channel
      of at most one execution. */
  lemma OneResultPerChannel(s: State, ch: nat)
    requires Reachable(s) && ch < |s.chans|
    ensures |s.chans[ch].receivers| <= |s.chans[ch].sent| <= 1
    ensures forall i, j | 0 <= i < |s.log| && 0 <= j < |s.log| && s.log[i].chan == ch && s.log[j].chan == ch :: i == j
  {
    ReachableInv(s);
    assert ChanOk(s, ch);
  }

  /** The channel a listener has looked up is the one registered for the current work, and unused. */
  lemma SendsIntoOwnChannel(s: State, w: nat)
    requires Reachable(s) && w < |s.workers| && s.workers[w].listener.Sending?
    ensures var Sending(work, res, ch) := s.workers[w].listener;
      && ch == work.chan && ch < |s.chans| && s.chans[ch].worker == w && s.chans[ch].task == work.task
      && s.chans[ch].sent == [] && s.chans[ch].receivers == []
  {
    ReachableInv(s);
    assert WorkerOk(s, w);
    assert ChanOk(s, s.workers[w].listener.ch);
  }

  // ---------- The registry and the session counter ----------

  /** A worker found in the registry has the key it is found under, and its listener has not yet
      unregistered, however many creations raced for that key. */
  lemma RegistrySafety(s: State, k: Key)
    requires Reachable(s) && k in s.registry
    ensures s.registry[k] < |s.workers| && s.workers[s.registry[k]].key == k
    ensures !s.workers[s.registry[k]].listener.Unregistered()
  {
    ReachableInv(s);
  }

  /** numberOfSessions is the workers counted at creation minus the listeners that have finished. */
  lemma SessionCount(s: State)
    requires Reachable(s)
    ensures GoneWorkers(s.workers) <= CountedWorkers(s.workers)
    ensures s.sessions == |CountedWorkers(s.workers)| - |GoneWorkers(s.workers)| >= 0
  {
    ReachableInv(s);
    forall w | w in GoneWorkers(s.workers) ensures w in CountedWorkers(s.workers) {
      assert WorkerOk(s, w);
    }
    SubsetSize(GoneWorkers(s.workers), CountedWorkers(s.workers));
  }

  // ---------- Facts about all continuations ----------

  /** From `s` to `t` the worker `w` has executed nothing. */
  ghost predicate Idle(s: State, t: State, w: nat) {
    s.log <= t.log && forall i | |s.log| <= i < |t.log| :: t.log[i].worker != w
  }

  ghost predicate Broken(s: State, w: nat) {
    w < |s.workers| && s.workers[w].broken >= 1
  }

  lemma ListenerKeepsBroken(s: State, v: nat, step: ListenerStep, w: nat)
    requires TokensOk(s) && ListenerEnabled(s, v, step) && Broken(s, w)
    ensures Broken(ListenerApply(s, v, step), w) && Idle(s, ListenerApply(s, v, step), w)
  {
    assert Tokens(s, w) == 1;
  }

  lemma BrokenStep(s: State, e: Event, w: nat)
    requires TokensOk(s) && Enabled(s, e) && Broken(s, w)
    ensures Broken(Apply(s, e), w) && Idle(s, Apply(s, e), w)
  {
    if e.ListenerEvent? { ListenerKeepsBroken(s, e.w, e.listenerStep, w); }
  }

  lemma {:induction false} BrokenForever(s: State, es: seq<Event>, t: State, w: nat)
    requires Inv(s) && Leads(s, es, t) && Broken(s, w)
    ensures Broken(t, w) && Idle(s, t, w) && Inv(t)
    decreases |es|
  {
    if es != [] {
      BrokenStep(s, es[0], w);
      StepKeepsInv(s, es[0]);
      BrokenForever(Apply(s, es[0]), es[1..], t, w);
    }
  }

  /** A `Break` that finds the worker idle disables it: from then on, whatever happens, the worker
      executes nothing and no client ever holds its token again. */
  lemma BreakDisablesIdleWorker(s: State, b: nat, es: seq<Event>, t: State)
    requires Reachable(s) && BreakerEnabled(s, b, TryToken) && s.workers[s.breakers[b].pc.w].signal
    requires Leads(Apply(s, BreakerEvent(b, TryToken)), es, t)
    ensures var w := s.breakers[b].pc.w;
      && Idle(s, t, w) && w < |t.workers| && !t.workers[w].signal
      && forall d: nat | d < |t.clients| :: !Holds(t.clients[d], w)
  {
    var w := s.breakers[b].pc.w;
    var u := Apply(s, BreakerEvent(b, TryToken));
    ReachableInv(s);
    StepKeepsInv(s, BreakerEvent(b, TryToken));
    BrokenForever(u, es, t, w);
    assert Tokens(t, w) == 1;
    forall d: nat | d < |t.clients| ensures !Holds(t.clients[d], w) {
      if Holds(t.clients[d], w) { OneHolder(t.clients, d, w); }
    }
  }

  ghost predicate Left(s: State, w: nat) {
    w < |s.workers| && s.workers[w].listener.Leaving()
  }

  lemma ListenerKeepsLeft(s: State, v: nat, step: ListenerStep, w: nat)
    requires ListenerEnabled(s, v, step) && Left(s, w)
    ensures Left(ListenerApply(s, v, step), w) && Idle(s, ListenerApply(s, v, step), w)
  {
  }

  lemma ClientKeepsLeft(s: State, c: nat, step: ClientStep, w: nat)
    requires ClientEnabled(s, c, step) && Left(s, w)
    ensures Left(ClientApply(s, c, step), w) && ClientApply(s, c, step).log == s.log
  {
  }

  lemma LeftStep(s: State, e: Event, w: nat)
    requires Enabled(s, e) && Left(s, w)
    ensures Left(Apply(s, e), w) && Idle(s, Apply(s, e), w)
  {
    match e
    case ListenerEvent(v, step) => ListenerKeepsLeft(s, v, step, w);
    case ClientEvent(c, step) => ClientKeepsLeft(s, c, step, w);
    case _ => OthersChange(s, e);
  }

  /** A listener that has left its loop never executes again; so the tasker's CloseAndFree, which
      comes after, is never followed by another Run of that tasker. */
  lemma {:induction false} NoWorkAfterLeaving(s: State, es: seq<Event>, t: State, w: nat)
    requires Leads(s, es, t) && Left(s, w)
    ensures Left(t, w) && Idle(s, t, w)
    decreases |es|
  {
    if es != [] {
      LeftStep(s, es[0], w);
      NoWorkAfterLeaving(Apply(s, es[0]), es[1..], t, w);
    }
  }

  lemma {:induction false} StuckForever(s: State, es: seq<Event>, t: State, c: nat)
    requires Leads(s, es, t) && c < |s.clients| && s.clients[c].pc.HandOver? && Left(s, s.clients[c].pc.w)
    ensures c < |t.clients| && t.clients[c] == s.clients[c]
    decreases |es|
  {
    if es != [] {
      LeftStep(s, es[0], s.clients[c].pc.w);
      StuckForever(Apply(s, es[0]), es[1..], t, c);
    }
  }

  /** A client at the rendezvous proceeds exactly when its listener is waiting for work; if the
      listener has left, that call of `Run` never returns, in any continuation. */
  lemma RendezvousOrNever(s: State, c: nat, es: seq<Event>, t: State)
    requires Reachable(s) && c < |s.clients| && s.clients[c].pc.HandOver? && Leads(s, es, t)
    ensures var w := s.clients[c].pc.w;
      && w < |s.workers|
      && (ClientEnabled(s, c, HandWork) <==> s.workers[w].listener.Select?)
      && (!s.workers[w].listener.Select? ==> c < |t.clients| && t.clients[c] == s.clients[c])
  {
    ReachableInv(s);
    assert ClientOk(s, c);
    HolderIsAlone(s, c, s.clients[c].pc.w);
    if !s.workers[s.clients[c].pc.w].listener.Select? {
      StuckForever(s, es, t, c);
    }
  }

  /** The channel's work was executed but its listener no longer has a result to send into it. */
  ghost predicate Missed(s: State, ch: nat) {
    && ch < |s.chans| && s.chans[ch].executed && s.chans[ch].sent == []
    && s.chans[ch].worker < |s.workers|
    && (var l := s.workers[s.chans[ch].worker].listener;
        l.LookingUp? || l.Sending? ==> l.work.chan != ch)
  }

  lemma ListenerKeepsMissed(s: State, w: nat, step: ListenerStep, ch: nat)
    requires ListenerEnabled(s, w, step) && WorkerOk(s, w) && Missed(s, ch)
    ensures Missed(ListenerApply(s, w, step), ch)
  {
  }

  lemma ClientKeepsMissed(s: State, c: nat, step: ClientStep, ch: nat)
    requires ClientEnabled(s, c, step) && Missed(s, ch)
    ensures Missed(ClientApply(s, c, step), ch)
  {
  }

  lemma MissedStep(s: State, e: Event, ch: nat)
    requires Inv(s) && Enabled(s, e) && Missed(s, ch)
    ensures Missed(Apply(s, e), ch)
  {
    match e
    case ListenerEvent(w, step) => ListenerKeepsMissed(s, w, step, ch);
    case ClientEvent(c, step) => ClientKeepsMissed(s, c, step, ch);
    case _ =>
  }

  lemma {:induction false} MissedForever(s: State, es: seq<Event>, t: State, ch: nat)
    requires Inv(s) && Leads(s, es, t) && Missed(s, ch)
    ensures ch < |t.chans| && t.chans[ch].sent == []
    decreases |es|
  {
    if es != [] {
      MissedStep(s, es[0], ch);
      StepKeepsInv(s, es[0]);
      MissedForever(Apply(s, es[0]), es[1..], t, ch);
    }
  }

  /** The result of an execution is sent exactly when the table entry of its task is still there at the
      lookup; if a late delete has removed it, no continuation ever sends it. */
  lemma SentOrLost(s: State, w: nat, es: seq<Event>, t: State)
    requires Reachable(s) && ListenerEnabled(s, w, FindOutChan) && Leads(Apply(s, ListenerEvent(w, FindOutChan)), es, t)
    ensures var work := s.workers[w].listener.work;
      var l := Apply(s, ListenerEvent(w, FindOutChan)).workers[w].listener;
      && (work.task in s.workers[w].outChans <==> l == Sending(work, s.workers[w].listener.res, work.chan))
      && (work.task !in s.workers[w].outChans ==> work.chan < |t.chans| && t.chans[work.chan].sent == [])
  {
    ReachableInv(s);
    assert WorkerOk(s, w);
    var work := s.workers[w].listener.work;
    if work.task !in s.workers[w].outChans {
      assert s.log[s.workers[w].listener.res.exec].chan == work.chan;
      StepKeepsInv(s, ListenerEvent(w, FindOutChan));
      MissedForever(Apply(s, ListenerEvent(w, FindOutChan)), es, t, work.chan);
    }
  }
}
