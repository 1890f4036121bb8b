/** Where a call of `Run` can get stuck: at the rendezvous with a listener that has left, and nowhere else. */
module WorkerProgress {
  import opened WorkerProtocol
  import opened WorkerInvariant
  import opened WorkerStep
  import opened WorkerSafety

  predicate HasReturned(s: State, c: nat) {
    c < |s.clients| && s.clients[c].pc.Replied?
  }

  /** Some continuation lets this call of `Run` return. */
  ghost predicate CanReturn(s: State, c: nat) {
    exists es, t :: Leads(s, es, t) && HasReturned(t, c)
  }

  /** The client holds the token of a worker whose listener has left. */
  ghost predicate Stranded(s: State, c: nat) {
    && c < |s.clients| && (s.clients[c].pc.Register? || s.clients[c].pc.HandOver?)
    && Left(s, s.clients[c].pc.w)
  }

  lemma After(s: State, e: Event, c: nat)
    requires Enabled(s, e) && CanReturn(Apply(s, e), c)
    ensures CanReturn(s, c)
  {
    var es, t :| Leads(Apply(s, e), es, t) && HasReturned(t, c);
    assert ([e] + es)[1..] == es;
    assert Leads(s, [e] + es, t);
  }

  lemma Now(s: State, c: nat)
    requires HasReturned(s, c)
    ensures CanReturn(s, c)
  {
    assert Leads(s, [], s);
  }

  /** A client that waits can time out; one that has its result can return it. */
  lemma WaitingReturns(s: State, c: nat)
    requires Inv(s) && c < |s.clients|
    requires s.clients[c].pc.AwaitToken? || s.clients[c].pc.AwaitResult? || s.clients[c].pc.Forget?
    ensures CanReturn(s, c)
  {
    assert ClientOk(s, c);
    var pc := s.clients[c].pc;
    var step := if pc.AwaitToken? then TokenTimeout else if pc.AwaitResult? then ResultTimeout else DeleteEntry;
    Now(Apply(s, ClientEvent(c, step)), c);
    After(s, ClientEvent(c, step), c);
  }

  /** Where a holder is not stranded, its listener is selecting. */
  lemma HolderReturns(s: State, c: nat)
    requires Inv(s) && c < |s.clients| && s.clients[c].pc.HandOver? && !Stranded(s, c)
    ensures CanReturn(s, c)
  {
    assert ClientOk(s, c);
    HolderIsAlone(s, c, s.clients[c].pc.w);
    StepKeepsInv(s, ClientEvent(c, HandWork));
    WaitingReturns(Apply(s, ClientEvent(c, HandWork)), c);
    After(s, ClientEvent(c, HandWork), c);
  }

  lemma RegisteringReturns(s: State, c: nat)
    requires Inv(s) && c < |s.clients| && s.clients[c].pc.Register? && !Stranded(s, c)
    ensures CanReturn(s, c)
  {
    assert ClientOk(s, c);
    StepKeepsInv(s, ClientEvent(c, RegisterChan));
    HolderReturns(Apply(s, ClientEvent(c, RegisterChan)), c);
    After(s, ClientEvent(c, RegisterChan), c);
  }

  lemma FinderReturns(s: State, c: nat)
    requires Inv(s) && c < |s.clients| && s.clients[c].pc.FindChan?
    ensures CanReturn(s, c)
  {
    assert ClientOk(s, c);
    StepKeepsInv(s, ClientEvent(c, ReadTable));
    WaitingReturns(Apply(s, ClientEvent(c, ReadTable)), c);
    After(s, ClientEvent(c, ReadTable), c);
  }

  lemma CounterReturns(s: State, c: nat)
    requires Inv(s) && c < |s.clients| && s.clients[c].pc.Counting?
    ensures CanReturn(s, c)
  {
    assert ClientOk(s, c);
    StepKeepsInv(s, ClientEvent(c, CountWorker));
    FinderReturns(Apply(s, ClientEvent(c, CountWorker)), c);
    After(s, ClientEvent(c, CountWorker), c);
  }

  lemma CreatorReturns(s: State, c: nat)
    requires Inv(s) && c < |s.clients| && s.clients[c].pc.Create? && s.wlock.None?
    ensures CanReturn(s, c)
  {
    StepKeepsInv(s, ClientEvent(c, CreateWorker));
    CounterReturns(Apply(s, ClientEvent(c, CreateWorker)), c);
    After(s, ClientEvent(c, CreateWorker), c);
  }

  lemma ReaderReturns(s: State, c: nat)
    requires Inv(s) && c < |s.clients| && (s.clients[c].pc.Lookup? || s.clients[c].pc.Create?) && s.wlock.None?
    ensures CanReturn(s, c)
  {
    if s.clients[c].pc.Create? {
      CreatorReturns(s, c);
    } else {
      var t := Apply(s, ClientEvent(c, ReadRegistry));
      StepKeepsInv(s, ClientEvent(c, ReadRegistry));
      if t.clients[c].pc.Create? { CreatorReturns(t, c); } else { FinderReturns(t, c); }
      After(s, ClientEvent(c, ReadRegistry), c);
    }
  }

  /** The write lock is held by a client that will release it in its next step. */
  lemma LockedOutReturns(s: State, c: nat)
    requires Inv(s) && c < |s.clients| && (s.clients[c].pc.Lookup? || s.clients[c].pc.Create?) && s.wlock.Some?
    ensures CanReturn(s, c)
  {
    var d := s.wlock.value;
    assert ClientOk(s, d);
    StepKeepsInv(s, ClientEvent(d, CountWorker));
    ReaderReturns(Apply(s, ClientEvent(d, CountWorker)), c);
    After(s, ClientEvent(d, CountWorker), c);
  }

  lemma StrandedStep(s: State, e: Event, c: nat)
    requires Inv(s) && Enabled(s, e) && Stranded(s, c)
    ensures Stranded(Apply(s, e), c)
  {
    assert ClientOk(s, c);
    LeftStep(s, e, s.clients[c].pc.w);
  }

  lemma {:induction false} StrandedForever(s: State, es: seq<Event>, t: State, c: nat)
    requires Inv(s) && Leads(s, es, t) && Stranded(s, c)
    ensures Stranded(t, c)
    decreases |es|
  {
    if es != [] {
      StrandedStep(s, es[0], c);
      StepKeepsInv(s, es[0]);
      StrandedForever(Apply(s, es[0]), es[1..], t, c);
    }
  }

  /** In every reachable state a call of `Run` can still return exactly when it does not hold the token of a
      worker whose listener has left. */
  lemma RunReturnsExactly(s: State, c: nat)
    requires Reachable(s) && c < |s.clients|
    ensures CanReturn(s, c) <==> !Stranded(s, c)
  {
    ReachableInv(s);
    var pc := s.clients[c].pc;
    if Stranded(s, c) {
      forall es, t | Leads(s, es, t) ensures !HasReturned(t, c) {
        StrandedForever(s, es, t, c);
      }
    } else if pc.Lookup? || pc.Create? {
      if s.wlock.None? { ReaderReturns(s, c); } else { LockedOutReturns(s, c); }
    } else if pc.Counting? {
      CounterReturns(s, c);
    } else if pc.FindChan? {
      FinderReturns(s, c);
    } else if pc.Register? {
      RegisteringReturns(s, c);
    } else if pc.HandOver? {
      HolderReturns(s, c);
    } else if pc.Replied? {
      Now(s, c);
    } else {
      WaitingReturns(s, c);
    }
  }
}
