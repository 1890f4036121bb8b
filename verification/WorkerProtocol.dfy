/**
 The session worker protocol: client goroutines inside `Run`, client goroutines inside `Break`
 and one `listen` goroutine per worker, sharing a one-slot token channel, an unbuffered work
 channel, a table of one-slot result channels and the global registry of workers.

 The protocol is a transition system. Every goroutine carries an explicit program counter, every
 event is one atomic action of one goroutine, and whatever the code leaves to chance (timeouts,
 the outcome of a database call, the choice of a `select`) is part of the event. A run is a
 sequence of events; the results in WorkerSafety speak about all of them.
 */
module WorkerProtocol {

  import opened Options

  /** The upper-cased path and session identifier under which a worker is registered. */
  datatype Key = Key(path: string, session: string)

  type TaskId = string

  /** What `Run` of the tasker produced; `exec` is the position of that execution in the history. */
  datatype Result = Result(exec: nat, interrupted: bool)

  /** One unit of work; `chan` is the result channel its client registered for it. */
  datatype Work = Work(task: TaskId, chan: nat)

  /** History: worker `worker` executed a work for `task` whose client had registered `chan`. */
  datatype Execution = Execution(worker: nat, task: TaskId, chan: nat)

  datatype Listener =
    | FirstToken                                // about to send the first token
    | Select                                    // waiting for a work or for the idle timeout
    | Starting(work: Work)                      // work received, not yet marked as started
    | Running(work: Work)                       // executing it
    | LookingUp(work: Work, res: Result)        // executed, result channel not yet looked up
    | Sending(work: Work, res: Result, ch: nat) // result channel found
    | Finishing(res: Result)                    // about to clear `started`
    | ReturningToken(res: Result)               // about to send the token back
    | Unregistering                             // left the loop; registry entry not yet deleted
    | Closing                                   // about to close the connection
    | Purging                                   // about to empty the table of result channels
    | Uncounting                                // about to decrement the session counter
    | Exited
  {
    predicate Busy() { Starting? || Running? || LookingUp? || Sending? || Finishing? || ReturningToken? }

    predicate Leaving() { Unregistering? || Closing? || Purging? || Uncounting? || Exited? }

    predicate Unregistered() { Closing? || Purging? || Uncounting? || Exited? }
  }

  /** `creator`, `counted` and `broken` are history: who created the worker, whether its creation
      has been counted, and how many tokens `Break` has taken from it. */
  datatype Worker = Worker(
    key: Key, signal: bool, outChans: map<TaskId, nat>, started: bool, listener: Listener,
    creator: nat, counted: bool, broken: nat)

  /** A result channel. Only `buffer` exists at run time; the rest is history: the worker and task
      it was made for, whether its work was executed, the results ever sent, the clients that received. */
  datatype Chan = Chan(
    worker: nat, task: TaskId, buffer: Option<Result>, executed: bool, sent: seq<Result>, receivers: seq<nat>)

  datatype Reply = Executed(res: Result) | BreakPage | WaitPage

  datatype ClientPc =
    | Lookup                                        // about to read the registry
    | Create                                        // not found; waiting for the write lock
    | Counting(w: nat)                              // worker created, lock held, not yet counted
    | FindChan(w: nat)                              // about to look for a result channel
    | AwaitToken(w: nat)                            // none; waiting for the token or a timeout
    | Register(w: nat)                              // has the token; channel not yet registered
    | HandOver(w: nat, ch: nat)                     // has the token; at the rendezvous
    | AwaitResult(w: nat, ch: nat)                  // waiting for the result or a timeout
    | Forget(w: nat, ch: nat, res: Result)          // result received; table entry not yet deleted
    | Replied(w: nat, ch: nat, reply: Reply)        // returned

  datatype Client = Client(key: Key, task: TaskId, pc: ClientPc)

  datatype BreakerPc =
    | BreakLookup                                   // about to read the registry
    | BreakSelect(w: nat)                           // found; about to try for the token
    | Interrupt(w: nat)                             // not idle; about to call the tasker's Break
    | Inside(w: nat)                                // inside the tasker's Break
    | BreakDone                                     // returned

  datatype Breaker = Breaker(key: Key, pc: BreakerPc)

  /** `wlock` is the client that holds the registry's write lock; read sections are single events
      that need the lock to be free. `sessions` is numberOfSessions, `log` the executions so far. */
  datatype State = State(
    wlock: Option<nat>, registry: map<Key, nat>, sessions: int,
    workers: seq<Worker>, chans: seq<Chan>, clients: seq<Client>, breakers: seq<Breaker>,
    log: seq<Execution>)

  function Init(): State {
    State(None, map[], 0, [], [], [], [], [])
  }

  /** The atomic actions of a client inside `Run`. */
  datatype ClientStep =
    | ReadRegistry | CreateWorker | CountWorker | ReadTable | TakeToken | TokenTimeout
    | RegisterChan | HandWork | ReceiveResult | DeleteEntry | ResultTimeout

  /** The atomic actions of a listener. */
  datatype ListenerStep =
    | SendFirstToken | IdleTimeout | Start | Execute(interrupted: bool) | FindOutChan | SendResult
    | Finish | ReturnToken | Unregister | Close | Purge | Uncount

  /** The atomic actions of a client inside `Break`. */
  datatype BreakerStep = ReadForBreak | TryToken | EnterBreak | LeaveBreak

  datatype Event =
    | CallRun(key: Key, task: TaskId)
    | CallBreak(key: Key)
    | ClientEvent(c: nat, clientStep: ClientStep)
    | ListenerEvent(w: nat, listenerStep: ListenerStep)
    | BreakerEvent(b: nat, breakerStep: BreakerStep)

  predicate ClientEnabled(s: State, c: nat, step: ClientStep) {
    c < |s.clients| &&
    var pc := s.clients[c].pc;
    match step
    case ReadRegistry => pc.Lookup? && s.wlock.None?
    case CreateWorker => pc.Create? && s.wlock.None?
    case CountWorker => pc.Counting? && pc.w < |s.workers|
    case ReadTable => pc.FindChan? && pc.w < |s.workers|
    case TakeToken => pc.AwaitToken? && pc.w < |s.workers| && s.workers[pc.w].signal
    case TokenTimeout => pc.AwaitToken?
    case RegisterChan => pc.Register? && pc.w < |s.workers|
    case HandWork => pc.HandOver? && pc.w < |s.workers| && s.workers[pc.w].listener.Select?
    case ReceiveResult => pc.AwaitResult? && pc.ch < |s.chans| && s.chans[pc.ch].buffer.Some?
    case DeleteEntry => pc.Forget? && pc.w < |s.workers|
    case ResultTimeout => pc.AwaitResult?
  }

  predicate ListenerEnabled(s: State, w: nat, step: ListenerStep) {
    w < |s.workers| &&
    var l := s.workers[w].listener;
    match step
    case SendFirstToken => l.FirstToken? && !s.workers[w].signal
    case IdleTimeout => l.Select?
    case Start => l.Starting?
    case Execute(_) => l.Running? && l.work.chan < |s.chans|
    case FindOutChan => l.LookingUp?
    case SendResult => l.Sending? && l.ch < |s.chans| && s.chans[l.ch].buffer.None?
    case Finish => l.Finishing?
    case ReturnToken => l.ReturningToken? && !s.workers[w].signal
    case Unregister => l.Unregistering? && s.wlock.None?
    case Close => l.Closing?
    case Purge => l.Purging?
    case Uncount => l.Uncounting?
  }

  predicate BreakerEnabled(s: State, b: nat, step: BreakerStep) {
    b < |s.breakers| &&
    var pc := s.breakers[b].pc;
    match step
    case ReadForBreak => pc.BreakLookup? && s.wlock.None?
    case TryToken => pc.BreakSelect? && pc.w < |s.workers|
    case EnterBreak => pc.Interrupt?
    case LeaveBreak => pc.Inside?
  }

  predicate Enabled(s: State, e: Event) {
    match e
    case CallRun(_, _) => true
    case CallBreak(_) => true
    case ClientEvent(c, step) => ClientEnabled(s, c, step)
    case ListenerEvent(w, step) => ListenerEnabled(s, w, step)
    case BreakerEvent(b, step) => BreakerEnabled(s, b, step)
  }

  function Goto(s: State, c: nat, pc: ClientPc): State
    requires c < |s.clients|
  {
    s.(clients := s.clients[c := s.clients[c].(pc := pc)])
  }

  function GotoBreak(s: State, b: nat, pc: BreakerPc): State
    requires b < |s.breakers|
  {
    s.(breakers := s.breakers[b := s.breakers[b].(pc := pc)])
  }

  function PutWorker(s: State, w: nat, worker: Worker): State
    requires w < |s.workers|
  {
    s.(workers := s.workers[w := worker])
  }

  function PutChan(s: State, ch: nat, chan: Chan): State
    requires ch < |s.chans|
  {
    s.(chans := s.chans[ch := chan])
  }

  function ClientApply(s: State, c: nat, step: ClientStep): State
    requires ClientEnabled(s, c, step)
  {
    var Client(key, task, pc) := s.clients[c];
    match step
    case ReadRegistry => Goto(s, c, if key in s.registry then FindChan(s.registry[key]) else Create)
    case CreateWorker =>
      // The registry is not read again: an entry made meanwhile by another client is replaced.
      var worker := Worker(key, false, map[], false, FirstToken, c, false, 0);
      Goto(s.(wlock := Some(c), registry := s.registry[key := |s.workers|], workers := s.workers + [worker]),
           c, Counting(|s.workers|))
    case CountWorker =>
      var worker := s.workers[pc.w].(counted := true);
      Goto(PutWorker(s.(wlock := None, sessions := s.sessions + 1), pc.w, worker), c, FindChan(pc.w))
    case ReadTable =>
      var table := s.workers[pc.w].outChans;
      Goto(s, c, if task in table then AwaitResult(pc.w, table[task]) else AwaitToken(pc.w))
    case TakeToken => Goto(PutWorker(s, pc.w, s.workers[pc.w].(signal := false)), c, Register(pc.w))
    case TokenTimeout => Goto(s, c, Replied(pc.w, 0, BreakPage))
    case RegisterChan =>
      var worker := s.workers[pc.w].(outChans := s.workers[pc.w].outChans[task := |s.chans|]);
      Goto(PutWorker(s.(chans := s.chans + [Chan(pc.w, task, None, false, [], [])]), pc.w, worker),
           c, HandOver(pc.w, |s.chans|))
    case HandWork =>
      var worker := s.workers[pc.w].(listener := Starting(Work(task, pc.ch)));
      Goto(PutWorker(s, pc.w, worker), c, AwaitResult(pc.w, pc.ch))
    case ReceiveResult =>
      var chan := s.chans[pc.ch];
      Goto(PutChan(s, pc.ch, chan.(buffer := None, receivers := chan.receivers + [c])),
           c, Forget(pc.w, pc.ch, chan.buffer.value))
    case DeleteEntry =>
      // The entry is deleted by task: it need not be the channel this client received from.
      var worker := s.workers[pc.w].(outChans := s.workers[pc.w].outChans - {task});
      Goto(PutWorker(s, pc.w, worker), c, Replied(pc.w, pc.ch, Executed(pc.res)))
    case ResultTimeout => Goto(s, c, Replied(pc.w, pc.ch, WaitPage))
  }

  function ListenerApply(s: State, w: nat, step: ListenerStep): State
    requires ListenerEnabled(s, w, step)
  {
    var worker := s.workers[w];
    var l := worker.listener;
    match step
    case SendFirstToken => PutWorker(s, w, worker.(signal := true, listener := Select))
    case IdleTimeout => PutWorker(s, w, worker.(listener := Unregistering))
    case Start => PutWorker(s, w, worker.(started := true, listener := Running(l.work)))
    case Execute(interrupted) =>
      var chan := s.chans[l.work.chan].(executed := true);
      PutWorker(PutChan(s.(log := s.log + [Execution(w, l.work.task, l.work.chan)]), l.work.chan, chan),
                w, worker.(listener := LookingUp(l.work, Result(|s.log|, interrupted))))
    case FindOutChan =>
      var table := worker.outChans;
      PutWorker(s, w, worker.(listener :=
        if l.work.task in table then Sending(l.work, l.res, table[l.work.task]) else Finishing(l.res)))
    case SendResult =>
      var chan := s.chans[l.ch];
      PutWorker(PutChan(s, l.ch, chan.(buffer := Some(l.res), sent := chan.sent + [l.res])),
                w, worker.(listener := Finishing(l.res)))
    case Finish => PutWorker(s, w, worker.(started := false, listener := ReturningToken(l.res)))
    case ReturnToken =>
      PutWorker(s, w, worker.(signal := true, listener := if l.res.interrupted then Unregistering else Select))
    case Unregister =>
      // The entry is deleted by key: it may belong to a younger worker with the same key.
      PutWorker(s.(registry := s.registry - {worker.key}), w, worker.(listener := Closing))
    case Close => PutWorker(s, w, worker.(listener := Purging))
    case Purge => PutWorker(s, w, worker.(outChans := map[], listener := Uncounting))
    case Uncount => PutWorker(s.(sessions := s.sessions - 1), w, worker.(listener := Exited))
  }

  function BreakerApply(s: State, b: nat, step: BreakerStep): State
    requires BreakerEnabled(s, b, step)
  {
    var Breaker(key, pc) := s.breakers[b];
    match step
    case ReadForBreak => GotoBreak(s, b, if key in s.registry then BreakSelect(s.registry[key]) else BreakDone)
    case TryToken =>
      // A token found here means the worker is idle; the token is not given back.
      var worker := s.workers[pc.w];
      if worker.signal
      then GotoBreak(PutWorker(s, pc.w, worker.(signal := false, broken := worker.broken + 1)), b, BreakDone)
      else GotoBreak(s, b, Interrupt(pc.w))
    case EnterBreak => GotoBreak(s, b, Inside(pc.w))
    case LeaveBreak => GotoBreak(s, b, BreakDone)
  }

  /** One action of one goroutine. */
  function Apply(s: State, e: Event): State
    requires Enabled(s, e)
  {
    match e
    case CallRun(key, task) => s.(clients := s.clients + [Client(key, task, Lookup)])
    case CallBreak(key) => s.(breakers := s.breakers + [Breaker(key, BreakLookup)])
    case ClientEvent(c, step) => ClientApply(s, c, step)
    case ListenerEvent(w, step) => ListenerApply(s, w, step)
    case BreakerEvent(b, step) => BreakerApply(s, b, step)
  }

  /** The events `es` lead from `s` to `t`. */
  ghost predicate Leads(s: State, es: seq<Event>, t: State)
    decreases |es|
  {
    if es == [] then s == t else Enabled(s, es[0]) && Leads(Apply(s, es[0]), es[1..], t)
  }

  ghost predicate Reachable(s: State) {
    exists es :: Leads(Init(), es, s)
  }
}
