/** The inductive invariant of the worker protocol. */
module WorkerInvariant {
  import opened Options
  import opened WorkerProtocol

  predicate Holds(client: Client, w: nat) {
    client.pc == Register(w) || (client.pc.HandOver? && client.pc.w == w)
  }

  /** The clients that have taken the token of worker `w` and not yet handed their work over. */
  function Holders(clients: seq<Client>, w: nat): set<nat> {
    set c: nat | c < |clients| && Holds(clients[c], w)
  }

  function Bit(b: bool): nat { if b then 1 else 0 }

  /** Every place the token of worker `w` can be in. */
  function Tokens(s: State, w: nat): nat
    requires w < |s.workers|
  {
    var worker := s.workers[w];
    Bit(worker.listener.FirstToken?) + Bit(worker.signal) + |Holders(s.clients, w)|
    + Bit(worker.listener.Busy()) + worker.broken
  }

  predicate Fresh(chan: Chan) {
    !chan.executed && chan.buffer.None? && chan.sent == [] && chan.receivers == []
  }

  predicate MadeFor(s: State, ch: nat, w: nat, task: TaskId) {
    ch < |s.chans| && s.chans[ch].worker == w && s.chans[ch].task == task
  }

  /** The table entry for `task`, unless a late delete has removed it, is `ch`. */
  predicate EntryIs(worker: Worker, task: TaskId, ch: nat) {
    task in worker.outChans ==> worker.outChans[task] == ch
  }

  predicate ExecutedAs(s: State, res: Result, x: Execution) {
    res.exec < |s.log| && s.log[res.exec] == x
  }

  predicate Received(s: State, c: nat, w: nat, ch: nat, res: Result)
    requires c < |s.clients|
  {
    MadeFor(s, ch, w, s.clients[c].task) && s.chans[ch].receivers == [c] && s.chans[ch].sent == [res]
  }

  predicate ClientOk(s: State, c: nat)
    requires c < |s.clients|
  {
    var client := s.clients[c];
    match client.pc
    case Lookup => true
    case Create => true
    case Counting(w) =>
      At(s, client, w) && s.wlock == Some(c) && s.workers[w].creator == c && !s.workers[w].counted
    case FindChan(w) => At(s, client, w)
    case AwaitToken(w) => At(s, client, w)
    case Register(w) => At(s, client, w)
    case HandOver(w, ch) =>
      At(s, client, w) && MadeFor(s, ch, w, client.task) && Fresh(s.chans[ch])
      && EntryIs(s.workers[w], client.task, ch)
    case AwaitResult(w, ch) => At(s, client, w) && MadeFor(s, ch, w, client.task)
    case Forget(w, ch, res) => At(s, client, w) && Received(s, c, w, ch, res)
    case Replied(w, ch, reply) => At(s, client, w) && (reply.Executed? ==> Received(s, c, w, ch, reply.res))
  }

  predicate At(s: State, client: Client, w: nat) {
    w < |s.workers| && s.workers[w].key == client.key
  }

  predicate WorkOk(s: State, w: nat, work: Work)
    requires w < |s.workers|
  {
    MadeFor(s, work.chan, w, work.task) && EntryIs(s.workers[w], work.task, work.chan)
  }

  predicate ResultOk(s: State, w: nat, work: Work, res: Result)
    requires w < |s.workers|
  {
    WorkOk(s, w, work) && ExecutedAs(s, res, Execution(w, work.task, work.chan))
    && s.chans[work.chan].sent == []
  }

  predicate ListenerOk(s: State, w: nat)
    requires w < |s.workers|
  {
    match s.workers[w].listener
    case Starting(work) => WorkOk(s, w, work) && Fresh(s.chans[work.chan])
    case Running(work) => WorkOk(s, w, work) && Fresh(s.chans[work.chan])
    case LookingUp(work, res) => ResultOk(s, w, work, res)
    case Sending(work, res, ch) => ResultOk(s, w, work, res) && ch == work.chan
    case _ => true
  }

  predicate WorkerOk(s: State, w: nat)
    requires w < |s.workers|
  {
    var worker := s.workers[w];
    && (forall t <- worker.outChans :: MadeFor(s, worker.outChans[t], w, t))
    && (worker.started <==> worker.listener.Running? || worker.listener.LookingUp?
                            || worker.listener.Sending? || worker.listener.Finishing?)
    && (!worker.counted ==> s.wlock == Some(worker.creator) && worker.creator < |s.clients|
                            && s.clients[worker.creator].pc == Counting(w))
    && (worker.listener.Unregistered() ==> worker.counted)
    && ListenerOk(s, w)
  }

  predicate ChanOk(s: State, ch: nat)
    requires ch < |s.chans|
  {
    var chan := s.chans[ch];
    && chan.worker < |s.workers|
    && |chan.receivers| <= |chan.sent| <= 1
    && chan.buffer == (if |chan.sent| == 1 && chan.receivers == [] then Some(chan.sent[0]) else None)
    && (chan.sent != [] ==> chan.executed && ExecutedAs(s, chan.sent[0], Execution(chan.worker, chan.task, ch)))
  }

  predicate LogOk(s: State) {
    && (forall i | 0 <= i < |s.log| ::
          MadeFor(s, s.log[i].chan, s.log[i].worker, s.log[i].task) && s.chans[s.log[i].chan].executed)
    && (forall i, j | 0 <= i < j < |s.log| :: s.log[i].chan != s.log[j].chan)
  }

  predicate RegistryOk(s: State) {
    forall k <- s.registry ::
      && s.registry[k] < |s.workers|
      && s.workers[s.registry[k]].key == k
      && !s.workers[s.registry[k]].listener.Unregistered()
  }

  function CountedWorkers(workers: seq<Worker>): set<nat> {
    set w: nat | w < |workers| && workers[w].counted
  }

  function GoneWorkers(workers: seq<Worker>): set<nat> {
    set w: nat | w < |workers| && workers[w].listener.Exited?
  }

  predicate SessionsOk(s: State) {
    s.sessions == |CountedWorkers(s.workers)| - |GoneWorkers(s.workers)|
  }

  predicate LockOk(s: State) {
    s.wlock.Some? ==> s.wlock.value < |s.clients| && s.clients[s.wlock.value].pc.Counting?
  }

  predicate TokensOk(s: State) {
    forall w: nat | w < |s.workers| :: Tokens(s, w) == 1
  }

  predicate Inv(s: State) {
    && TokensOk(s)
    && (forall c: nat | c < |s.clients| :: ClientOk(s, c))
    && (forall w: nat | w < |s.workers| :: WorkerOk(s, w))
    && (forall ch: nat | ch < |s.chans| :: ChanOk(s, ch))
    && LogOk(s) && RegistryOk(s) && SessionsOk(s) && LockOk(s)
  }

  // ---------- Counting ----------

  lemma HoldersAfterGoto(clients: seq<Client>, c: nat, client: Client, w: nat)
    requires c < |clients|
    ensures |Holders(clients[c := client], w)|
         == |Holders(clients, w)| - Bit(Holds(clients[c], w)) + Bit(Holds(client, w))
  {
    var before, after := Holders(clients, w), Holders(clients[c := client], w);
    assert before - {c} == after - {c};
    assert before == if Holds(clients[c], w) then (before - {c}) + {c} else before - {c};
    assert after == if Holds(client, w) then (after - {c}) + {c} else after - {c};
  }

  lemma HoldersAfterCall(clients: seq<Client>, client: Client, w: nat)
    requires client.pc.Lookup?
    ensures Holders(clients + [client], w) == Holders(clients, w)
  {
  }

  lemma TwoHolders(clients: seq<Client>, c: nat, d: nat, w: nat)
    requires c < |clients| && d < |clients| && c != d && Holds(clients[c], w) && Holds(clients[d], w)
    ensures |Holders(clients, w)| >= 2
  {
    var rest := Holders(clients, w) - {c};
    assert d in rest && Holders(clients, w) == rest + {c};
  }

  lemma OneHolder(clients: seq<Client>, c: nat, w: nat)
    requires c < |clients| && Holds(clients[c], w)
    ensures |Holders(clients, w)| >= 1
  {
    assert c in Holders(clients, w);
  }

  /** The holder of a token excludes every other holder, the listener at work and a free token. */
  lemma HolderIsAlone(s: State, c: nat, w: nat)
    requires TokensOk(s) && c < |s.clients| && w < |s.workers| && Holds(s.clients[c], w)
    ensures !s.workers[w].listener.FirstToken? && !s.workers[w].signal
    ensures !s.workers[w].listener.Busy() && s.workers[w].broken == 0
    ensures forall d: nat | d < |s.clients| && d != c :: !Holds(s.clients[d], w)
  {
    assert Tokens(s, w) == 1;
    OneHolder(s.clients, c, w);
    forall d: nat | d < |s.clients| && d != c ensures !Holds(s.clients[d], w) {
      if Holds(s.clients[d], w) { TwoHolders(s.clients, c, d, w); }
    }
  }

  lemma BusyIsAlone(s: State, w: nat)
    requires TokensOk(s) && w < |s.workers|
    requires s.workers[w].listener.Busy() || s.workers[w].signal || s.workers[w].listener.FirstToken?
    ensures forall d: nat | d < |s.clients| :: !Holds(s.clients[d], w)
  {
    assert Tokens(s, w) == 1;
    forall d: nat | d < |s.clients| ensures !Holds(s.clients[d], w) {
      if Holds(s.clients[d], w) { OneHolder(s.clients, d, w); }
    }
  }
}
