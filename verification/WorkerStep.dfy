/** Every event keeps the invariant of the worker protocol. */
module WorkerStep {
  import opened WorkerProtocol
  import opened WorkerInvariant

  // ---------- The token ----------

  lemma ClientKeepsTokens(s: State, c: nat, step: ClientStep)
    requires Inv(s) && ClientEnabled(s, c, step)
    ensures TokensOk(ClientApply(s, c, step))
  {
    var t := ClientApply(s, c, step);
    assert ClientOk(s, c);
    assert t.clients == s.clients[c := t.clients[c]];
    forall w: nat | w < |t.workers| ensures Tokens(t, w) == 1 {
      HoldersAfterGoto(s.clients, c, t.clients[c], w);
      if w < |s.workers| {
        assert Tokens(s, w) == 1;
      } else {
        NobodyHoldsUnborn(s, w);
      }
    }
  }

  lemma NobodyHoldsUnborn(s: State, w: nat)
    requires Inv(s) && w >= |s.workers|
    ensures Holders(s.clients, w) == {}
  {
    forall d: nat | d < |s.clients| ensures !Holds(s.clients[d], w) {
      assert ClientOk(s, d);
    }
  }

  lemma ListenerKeepsTokens(s: State, w: nat, step: ListenerStep)
    requires Inv(s) && ListenerEnabled(s, w, step)
    ensures TokensOk(ListenerApply(s, w, step))
  {
    var t := ListenerApply(s, w, step);
    forall v: nat | v < |t.workers| ensures Tokens(t, v) == 1 {
      assert Tokens(s, v) == 1;
    }
  }

  lemma OthersKeepTokens(s: State, e: Event)
    requires Inv(s) && Enabled(s, e) && (e.CallRun? || e.CallBreak? || e.BreakerEvent?)
    ensures TokensOk(Apply(s, e))
  {
    var t := Apply(s, e);
    forall w: nat | w < |t.workers| ensures Tokens(t, w) == 1 {
      assert Tokens(s, w) == 1;
      if e.CallRun? { HoldersAfterCall(s.clients, Client(e.key, e.task, Lookup), w); }
    }
  }

  // ---------- What a step leaves alone ----------

  /** Channels keep their worker and task, and the log only grows. */
  predicate Grows(s: State, t: State) {
    && |s.chans| <= |t.chans| && s.log <= t.log
    && forall ch: nat | ch < |s.chans| ::
         t.chans[ch].worker == s.chans[ch].worker && t.chans[ch].task == s.chans[ch].task
  }

  /** Whoever still has to count worker `v` is where he was, and so is the lock. */
  predicate CreatorStays(s: State, t: State, v: nat)
    requires v < |s.workers|
  {
    var c := s.workers[v].creator;
    !s.workers[v].counted && c < |s.clients| ==>
      t.wlock == s.wlock && c < |t.clients| && t.clients[c].pc == s.clients[c].pc
  }

  lemma WorkerStays(s: State, t: State, v: nat)
    requires v < |s.workers| && v < |t.workers| && WorkerOk(s, v) && Grows(s, t) && CreatorStays(s, t, v)
    requires t.workers[v] == s.workers[v].(signal := t.workers[v].signal, broken := t.workers[v].broken)
    requires forall ch: nat | ch < |s.chans| && s.chans[ch].worker == v :: t.chans[ch] == s.chans[ch]
    ensures WorkerOk(t, v)
  {
  }

  // ---------- Clients ----------

  /** Steps that change nothing but where the client is. */
  predicate Moves(step: ClientStep) {
    step.ReadRegistry? || step.ReadTable? || step.TokenTimeout? || step.ResultTimeout?
  }

  /** Steps that change the state of the client's worker, or make one. */
  predicate Works(step: ClientStep) {
    !Moves(step) && !step.RegisterChan? && !step.ReceiveResult?
  }

  lemma ClientKeepsItself(s: State, c: nat, step: ClientStep)
    requires ClientEnabled(s, c, step) && ClientOk(s, c)
    requires step.ReceiveResult? ==> ChanOk(s, s.clients[c].pc.ch)
    requires step.ReadTable? ==> WorkerOk(s, s.clients[c].pc.w)
    requires step.ReadRegistry? ==> RegistryOk(s)
    ensures ClientOk(ClientApply(s, c, step), c)
  {
  }

  /** What client `d` relies on survives a step of client `c`. */
  lemma MoveKeepsOtherClient(s: State, c: nat, step: ClientStep, d: nat)
    requires ClientEnabled(s, c, step) && Moves(step) && d < |s.clients| && d != c && ClientOk(s, d)
    ensures ClientOk(ClientApply(s, c, step), d)
  {
  }

  lemma WorkKeepsOtherClient(s: State, c: nat, step: ClientStep, d: nat)
    requires ClientEnabled(s, c, step) && Works(step)
    requires d < |s.clients| && d != c && ClientOk(s, c) && ClientOk(s, d)
    ensures ClientOk(ClientApply(s, c, step), d)
  {
  }

  lemma ChanKeepsOtherClient(s: State, c: nat, step: ClientStep, d: nat)
    requires ClientEnabled(s, c, step) && (step.RegisterChan? || step.ReceiveResult?)
    requires d < |s.clients| && d != c && ClientOk(s, c) && ClientOk(s, d)
    requires step.RegisterChan? ==> !Holds(s.clients[d], s.clients[c].pc.w)
    requires step.ReceiveResult? ==> ChanOk(s, s.clients[c].pc.ch)
    ensures ClientOk(ClientApply(s, c, step), d)
  {
  }

  lemma ClientKeepsClients(s: State, c: nat, step: ClientStep)
    requires Inv(s) && ClientEnabled(s, c, step)
    ensures var t := ClientApply(s, c, step); forall d: nat | d < |t.clients| :: ClientOk(t, d)
  {
    var pc := s.clients[c].pc;
    assert ClientOk(s, c);
    if step.RegisterChan? { HolderIsAlone(s, c, pc.w); }
    forall d: nat | d < |s.clients| ensures ClientOk(ClientApply(s, c, step), d) {
      if d == c {
        ClientKeepsItself(s, c, step);
      } else if Moves(step) {
        MoveKeepsOtherClient(s, c, step, d);
      } else if Works(step) {
        WorkKeepsOtherClient(s, c, step, d);
      } else {
        ChanKeepsOtherClient(s, c, step, d);
      }
    }
  }

  /** Steps that touch a channel. */
  predicate Posts(step: ListenerStep) {
    step.Execute? || step.SendResult?
  }

  lemma PostKeepsClient(s: State, w: nat, step: ListenerStep, d: nat)
    requires ListenerEnabled(s, w, step) && Posts(step) && d < |s.clients|
    requires WorkerOk(s, w) && ClientOk(s, d) && !Holds(s.clients[d], w)
    ensures ClientOk(ListenerApply(s, w, step), d)
  {
  }

  lemma QuietKeepsClient(s: State, w: nat, step: ListenerStep, d: nat)
    requires ListenerEnabled(s, w, step) && !Posts(step) && d < |s.clients| && ClientOk(s, d)
    ensures ClientOk(ListenerApply(s, w, step), d)
  {
    var t := ListenerApply(s, w, step);
    assert t.workers == s.workers[w := t.workers[w]];
    ClientStays(s, t, w, d);
  }

  lemma ClientStays(s: State, t: State, w: nat, d: nat)
    requires w < |s.workers| && d < |s.clients| && ClientOk(s, d)
    requires t.clients == s.clients && t.chans == s.chans && t.wlock == s.wlock
    requires |t.workers| == |s.workers| && t.workers == s.workers[w := t.workers[w]]
    requires t.workers[w].key == s.workers[w].key && t.workers[w].creator == s.workers[w].creator
    requires t.workers[w].counted == s.workers[w].counted
    requires t.workers[w].outChans == s.workers[w].outChans || t.workers[w].outChans == map[]
    ensures ClientOk(t, d)
  {
  }

  lemma ListenerKeepsClients(s: State, w: nat, step: ListenerStep)
    requires Inv(s) && ListenerEnabled(s, w, step)
    ensures var t := ListenerApply(s, w, step); forall d: nat | d < |t.clients| :: ClientOk(t, d)
  {
    if Posts(step) { BusyIsAlone(s, w); }
    forall d: nat | d < |s.clients| ensures ClientOk(ListenerApply(s, w, step), d) {
      if Posts(step) { PostKeepsClient(s, w, step, d); } else { QuietKeepsClient(s, w, step, d); }
    }
  }

  // ---------- Workers ----------

  /** What the listener of worker `v` relies on survives a step of client `c`. */
  lemma MoveKeepsWorker(s: State, c: nat, step: ClientStep, v: nat)
    requires ClientEnabled(s, c, step) && Moves(step) && v < |s.workers| && ClientOk(s, c) && WorkerOk(s, v)
    ensures WorkerOk(ClientApply(s, c, step), v)
  {
  }

  lemma WorkKeepsOtherWorker(s: State, c: nat, step: ClientStep, v: nat)
    requires ClientEnabled(s, c, step) && Works(step) && (step.CreateWorker? || v != s.clients[c].pc.w)
    requires v < |s.workers| && ClientOk(s, c) && WorkerOk(s, v)
    ensures WorkerOk(ClientApply(s, c, step), v)
  {
    WorkerStays(s, ClientApply(s, c, step), v);
  }

  lemma WorkKeepsWorker(s: State, c: nat, step: ClientStep)
    requires ClientEnabled(s, c, step) && (step.CountWorker? || step.TakeToken? || step.DeleteEntry?)
    requires ClientOk(s, c) && WorkerOk(s, s.clients[c].pc.w)
    ensures WorkerOk(ClientApply(s, c, step), s.clients[c].pc.w)
  {
  }

  lemma HandWorkKeepsWorker(s: State, c: nat)
    requires ClientEnabled(s, c, HandWork) && ClientOk(s, c)
    requires WorkerOk(s, s.clients[c].pc.w)
    ensures WorkerOk(ClientApply(s, c, HandWork), s.clients[c].pc.w)
  {
  }

  lemma RegisterKeepsWorker(s: State, c: nat, v: nat)
    requires ClientEnabled(s, c, RegisterChan) && v < |s.workers| && ClientOk(s, c) && WorkerOk(s, v)
    requires s.clients[c].pc.w == v ==> !s.workers[v].listener.Busy()
    ensures WorkerOk(ClientApply(s, c, RegisterChan), v)
  {
  }

  lemma ReceiveKeepsWorker(s: State, c: nat, v: nat)
    requires ClientEnabled(s, c, ReceiveResult) && v < |s.workers| && ClientOk(s, c) && WorkerOk(s, v)
    requires ChanOk(s, s.clients[c].pc.ch)
    ensures WorkerOk(ClientApply(s, c, ReceiveResult), v)
  {
  }

  lemma ClientKeepsWorkers(s: State, c: nat, step: ClientStep)
    requires Inv(s) && ClientEnabled(s, c, step)
    ensures var t := ClientApply(s, c, step); forall v: nat | v < |t.workers| :: WorkerOk(t, v)
  {
    var t := ClientApply(s, c, step);
    if step.RegisterChan? { HolderIsAlone(s, c, s.clients[c].pc.w); }
    forall v: nat | v < |t.workers| ensures WorkerOk(t, v) {
      if v < |s.workers| {
        assert ClientOk(s, c);
        if step.RegisterChan? {
          RegisterKeepsWorker(s, c, v);
        } else if step.ReceiveResult? {
          ReceiveKeepsWorker(s, c, v);
        } else if Moves(step) {
          MoveKeepsWorker(s, c, step, v);
        } else if step.CreateWorker? || v != s.clients[c].pc.w {
          WorkKeepsOtherWorker(s, c, step, v);
        } else if step.HandWork? {
          HandWorkKeepsWorker(s, c);
        } else {
          WorkKeepsWorker(s, c, step);
        }
      }
    }
  }

  lemma PostKeepsItself(s: State, w: nat, step: ListenerStep)
    requires ListenerEnabled(s, w, step) && Posts(step) && WorkerOk(s, w)
    ensures WorkerOk(ListenerApply(s, w, step), w)
  {
  }

  lemma QuietKeepsItself(s: State, w: nat, step: ListenerStep)
    requires ListenerEnabled(s, w, step) && !Posts(step) && WorkerOk(s, w)
    ensures WorkerOk(ListenerApply(s, w, step), w)
  {
  }

  lemma ListenerKeepsOther(s: State, w: nat, step: ListenerStep, v: nat)
    requires ListenerEnabled(s, w, step) && v < |s.workers| && v != w && WorkerOk(s, w) && WorkerOk(s, v)
    ensures WorkerOk(ListenerApply(s, w, step), v)
  {
    WorkerStays(s, ListenerApply(s, w, step), v);
  }

  lemma ListenerKeepsWorkers(s: State, w: nat, step: ListenerStep)
    requires Inv(s) && ListenerEnabled(s, w, step)
    ensures var t := ListenerApply(s, w, step); forall v: nat | v < |t.workers| :: WorkerOk(t, v)
  {
    assert WorkerOk(s, w);
    forall v: nat | v < |s.workers| ensures WorkerOk(ListenerApply(s, w, step), v) {
      if v != w {
        ListenerKeepsOther(s, w, step, v);
      } else if Posts(step) {
        PostKeepsItself(s, w, step);
      } else {
        QuietKeepsItself(s, w, step);
      }
    }
  }

  // ---------- Channels and the history of executions ----------

  lemma ClientKeepsChans(s: State, c: nat, step: ClientStep)
    requires Inv(s) && ClientEnabled(s, c, step)
    ensures var t := ClientApply(s, c, step); (forall ch: nat | ch < |t.chans| :: ChanOk(t, ch)) && LogOk(t)
  {
    var t := ClientApply(s, c, step);
    assert ClientOk(s, c);
    forall ch: nat | ch < |t.chans| ensures ChanOk(t, ch) {
      if ch < |s.chans| { assert ChanOk(s, ch); }
    }
  }

  lemma PostKeepsChans(s: State, w: nat, step: ListenerStep)
    requires Inv(s) && ListenerEnabled(s, w, step) && Posts(step)
    ensures var t := ListenerApply(s, w, step); (forall ch: nat | ch < |t.chans| :: ChanOk(t, ch)) && LogOk(t)
  {
    var t := ListenerApply(s, w, step);
    assert WorkerOk(s, w);
    forall ch: nat | ch < |t.chans| ensures ChanOk(t, ch) {
      assert ChanOk(s, ch);
    }
  }

  lemma QuietKeepsChans(s: State, w: nat, step: ListenerStep)
    requires Inv(s) && ListenerEnabled(s, w, step) && !Posts(step)
    ensures var t := ListenerApply(s, w, step); (forall ch: nat | ch < |t.chans| :: ChanOk(t, ch)) && LogOk(t)
  {
    ChansStay(s, ListenerApply(s, w, step));
  }

  lemma ChansStay(s: State, t: State)
    requires (forall ch: nat | ch < |s.chans| :: ChanOk(s, ch)) && LogOk(s)
    requires t.chans == s.chans && t.log == s.log && |t.workers| == |s.workers|
    ensures (forall ch: nat | ch < |t.chans| :: ChanOk(t, ch)) && LogOk(t)
  {
    forall ch: nat | ch < |t.chans| ensures ChanOk(t, ch) { assert ChanOk(s, ch); }
  }

  // ---------- Registry, lock and session counter ----------

  /** No listener unregisters in a step that leaves the registry alone. */
  predicate RegistryStays(s: State, t: State) {
    && t.registry == s.registry && |s.workers| <= |t.workers|
    && forall v: nat | v < |s.workers| ::
         t.workers[v].key == s.workers[v].key
         && (t.workers[v].listener.Unregistered() ==> s.workers[v].listener.Unregistered())
  }

  lemma RegistryStaysOk(s: State, t: State)
    requires RegistryOk(s) && RegistryStays(s, t)
    ensures RegistryOk(t)
  {
  }

  lemma ClientLeavesRegistry(s: State, c: nat, step: ClientStep)
    requires ClientEnabled(s, c, step) && !step.CreateWorker?
    ensures RegistryStays(s, ClientApply(s, c, step))
  {
  }

  lemma CreateKeepsRegistry(s: State, c: nat)
    requires RegistryOk(s) && ClientEnabled(s, c, CreateWorker)
    ensures RegistryOk(ClientApply(s, c, CreateWorker))
  {
  }

  lemma ClientKeepsRegistry(s: State, c: nat, step: ClientStep)
    requires RegistryOk(s) && ClientEnabled(s, c, step)
    ensures RegistryOk(ClientApply(s, c, step))
  {
    if step.CreateWorker? {
      CreateKeepsRegistry(s, c);
    } else {
      ClientLeavesRegistry(s, c, step);
      RegistryStaysOk(s, ClientApply(s, c, step));
    }
  }

  lemma ClientKeepsLock(s: State, c: nat, step: ClientStep)
    requires LockOk(s) && ClientEnabled(s, c, step) && ClientOk(s, c)
    ensures LockOk(ClientApply(s, c, step))
  {
  }

  lemma UnregisterKeepsRegistry(s: State, w: nat)
    requires RegistryOk(s) && ListenerEnabled(s, w, Unregister)
    ensures RegistryOk(ListenerApply(s, w, Unregister))
  {
  }

  lemma ListenerKeepsRegistry(s: State, w: nat, step: ListenerStep)
    requires RegistryOk(s) && LockOk(s) && ListenerEnabled(s, w, step)
    ensures RegistryOk(ListenerApply(s, w, step)) && LockOk(ListenerApply(s, w, step))
  {
    if step.Unregister? {
      UnregisterKeepsRegistry(s, w);
    } else {
      RegistryStaysOk(s, ListenerApply(s, w, step));
    }
  }

  /** Replacing one worker's record moves the two counts by what changes for that worker. */
  lemma CountsAfterPut(workers: seq<Worker>, w: nat, worker: Worker)
    requires w < |workers|
    ensures |CountedWorkers(workers[w := worker])|
         == |CountedWorkers(workers)| - Bit(workers[w].counted) + Bit(worker.counted)
    ensures |GoneWorkers(workers[w := worker])|
         == |GoneWorkers(workers)| - Bit(workers[w].listener.Exited?) + Bit(worker.listener.Exited?)
  {
    var after := workers[w := worker];
    CountOne(CountedWorkers(workers), CountedWorkers(after), w);
    CountOne(GoneWorkers(workers), GoneWorkers(after), w);
  }

  /** Sets that differ in `w` at most. */
  lemma CountOne(a: set<nat>, b: set<nat>, w: nat)
    requires a - {w} == b - {w}
    ensures |b| == |a| - Bit(w in a) + Bit(w in b)
  {
    assert a == if w in a then (a - {w}) + {w} else a - {w};
    assert b == if w in b then (b - {w}) + {w} else b - {w};
  }

  lemma CountsAfterCreate(workers: seq<Worker>, worker: Worker)
    requires !worker.counted && !worker.listener.Exited?
    ensures CountedWorkers(workers + [worker]) == CountedWorkers(workers)
    ensures GoneWorkers(workers + [worker]) == GoneWorkers(workers)
  {
  }

  lemma ClientKeepsSessions(s: State, c: nat, step: ClientStep)
    requires SessionsOk(s) && ClientEnabled(s, c, step) && ClientOk(s, c)
    ensures SessionsOk(ClientApply(s, c, step))
  {
    var t, pc := ClientApply(s, c, step), s.clients[c].pc;
    if step.CreateWorker? {
      CountsAfterCreate(s.workers, t.workers[|s.workers|]);
    } else if !pc.Lookup? && !pc.Create? && pc.w < |s.workers| {
      assert t.workers == s.workers[pc.w := t.workers[pc.w]];
      CountsAfterPut(s.workers, pc.w, t.workers[pc.w]);
    }
  }

  lemma ListenerKeepsSessions(s: State, w: nat, step: ListenerStep)
    requires SessionsOk(s) && ListenerEnabled(s, w, step)
    ensures SessionsOk(ListenerApply(s, w, step))
  {
    var t := ListenerApply(s, w, step);
    assert t.workers == s.workers[w := t.workers[w]];
    CountsAfterPut(s.workers, w, t.workers[w]);
  }

  // ---------- New calls and Break ----------

  lemma CallKeepsClient(s: State, e: Event, d: nat)
    requires e.CallRun? || e.CallBreak?
    requires d < |Apply(s, e).clients| && (d < |s.clients| ==> ClientOk(s, d))
    ensures ClientOk(Apply(s, e), d)
  {
  }

  lemma BreakerKeepsClient(s: State, b: nat, step: BreakerStep, d: nat)
    requires BreakerEnabled(s, b, step) && d < |s.clients| && ClientOk(s, d)
    ensures d < |BreakerApply(s, b, step).clients| && ClientOk(BreakerApply(s, b, step), d)
  {
    BreakerChanges(s, b, step);
  }

  /** A `Break` takes a token at most, and moves itself. */
  lemma BreakerChanges(s: State, b: nat, step: BreakerStep)
    requires BreakerEnabled(s, b, step)
    ensures var t := BreakerApply(s, b, step);
      && t == s.(breakers := t.breakers, workers := t.workers) && |t.workers| == |s.workers|
      && forall v: nat | v < |s.workers| ::
           t.workers[v] == s.workers[v].(signal := t.workers[v].signal, broken := t.workers[v].broken)
  {
  }

  lemma CallKeepsWorker(s: State, e: Event, v: nat)
    requires (e.CallRun? || e.CallBreak?) && v < |s.workers| && WorkerOk(s, v)
    ensures WorkerOk(Apply(s, e), v)
  {
    WorkerStays(s, Apply(s, e), v);
  }

  lemma BreakerKeepsWorker(s: State, b: nat, step: BreakerStep, v: nat)
    requires BreakerEnabled(s, b, step) && v < |s.workers| && WorkerOk(s, v)
    ensures v < |BreakerApply(s, b, step).workers| && WorkerOk(BreakerApply(s, b, step), v)
  {
    BreakerChanges(s, b, step);
    WorkerStays(s, BreakerApply(s, b, step), v);
  }

  /** New calls and `Break` clients touch nothing but themselves and a worker's token. */
  lemma OthersChange(s: State, e: Event)
    requires Enabled(s, e) && (e.CallRun? || e.CallBreak? || e.BreakerEvent?)
    ensures var t := Apply(s, e);
      && t == s.(clients := t.clients, breakers := t.breakers, workers := t.workers)
      && |t.workers| == |s.workers| && s.clients <= t.clients
      && forall v: nat | v < |s.workers| ::
           t.workers[v] == s.workers[v].(signal := t.workers[v].signal, broken := t.workers[v].broken)
  {
    if e.BreakerEvent? { BreakerChanges(s, e.b, e.breakerStep); }
  }

  lemma OthersKeepRest(s: State, e: Event)
    requires Enabled(s, e) && (e.CallRun? || e.CallBreak? || e.BreakerEvent?)
    requires (forall ch: nat | ch < |s.chans| :: ChanOk(s, ch)) && LogOk(s)
    requires RegistryOk(s) && SessionsOk(s) && LockOk(s)
    ensures var t := Apply(s, e);
      (forall ch: nat | ch < |t.chans| :: ChanOk(t, ch)) && LogOk(t) && RegistryOk(t) && SessionsOk(t) && LockOk(t)
  {
    var t := Apply(s, e);
    OthersChange(s, e);
    RestStays(s, t);
  }

  lemma RestStays(s: State, t: State)
    requires (forall ch: nat | ch < |s.chans| :: ChanOk(s, ch)) && LogOk(s)
    requires RegistryOk(s) && SessionsOk(s) && LockOk(s)
    requires t == s.(clients := t.clients, breakers := t.breakers, workers := t.workers)
    requires |t.workers| == |s.workers| && s.clients <= t.clients
    requires forall v: nat | v < |s.workers| ::
        t.workers[v] == s.workers[v].(signal := t.workers[v].signal, broken := t.workers[v].broken)
    ensures (forall ch: nat | ch < |t.chans| :: ChanOk(t, ch)) && LogOk(t)
    ensures RegistryOk(t) && SessionsOk(t) && LockOk(t)
  {
    ChansStay(s, t);
    assert CountedWorkers(t.workers) == CountedWorkers(s.workers);
    assert GoneWorkers(t.workers) == GoneWorkers(s.workers);
  }

  lemma OthersKeepInv(s: State, e: Event)
    requires Inv(s) && Enabled(s, e) && (e.CallRun? || e.CallBreak? || e.BreakerEvent?)
    ensures Inv(Apply(s, e))
  {
    var t := Apply(s, e);
    OthersKeepTokens(s, e);
    OthersKeepRest(s, e);
    forall d: nat | d < |t.clients| ensures ClientOk(t, d) {
      if e.BreakerEvent? { BreakerKeepsClient(s, e.b, e.breakerStep, d); } else { CallKeepsClient(s, e, d); }
    }
    forall v: nat | v < |t.workers| ensures WorkerOk(t, v) {
      assert |t.workers| == |s.workers|;
      if e.BreakerEvent? { BreakerKeepsWorker(s, e.b, e.breakerStep, v); } else { CallKeepsWorker(s, e, v); }
    }
  }

  lemma StepKeepsInv(s: State, e: Event)
    requires Inv(s) && Enabled(s, e)
    ensures Inv(Apply(s, e))
  {
    match e
    case ClientEvent(c, step) =>
      ClientKeepsTokens(s, c, step);
      ClientKeepsClients(s, c, step);
      ClientKeepsWorkers(s, c, step);
      ClientKeepsChans(s, c, step);
      assert ClientOk(s, c);
      ClientKeepsRegistry(s, c, step);
      ClientKeepsLock(s, c, step);
      ClientKeepsSessions(s, c, step);
    case ListenerEvent(w, step) =>
      ListenerKeepsTokens(s, w, step);
      ListenerKeepsClients(s, w, step);
      ListenerKeepsWorkers(s, w, step);
      if Posts(step) { PostKeepsChans(s, w, step); } else { QuietKeepsChans(s, w, step); }
      ListenerKeepsRegistry(s, w, step);
      ListenerKeepsSessions(s, w, step);
    case _ =>
      OthersKeepInv(s, e);
  }

  lemma {:induction false} RunKeepsInv(s: State, es: seq<Event>, t: State)
    requires Inv(s) && Leads(s, es, t)
    ensures Inv(t)
    decreases |es|
  {
    if es != [] {
      StepKeepsInv(s, es[0]);
      RunKeepsInv(Apply(s, es[0]), es[1..], t);
    }
  }

  /** The invariant holds in every reachable state. */
  lemma ReachableInv(s: State)
    requires Reachable(s)
    ensures Inv(s)
  {
    var es :| Leads(Init(), es, s);
    assert CountedWorkers([]) == {} && GoneWorkers([]) == {};
    RunKeepsInv(Init(), es, s);
  }
}
