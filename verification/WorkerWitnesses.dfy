/** Reachable states that show what the worker protocol does not promise. */
module WorkerWitnesses {
  import opened Options
  import opened WorkerProtocol
  import opened WorkerInvariant
  import opened WorkerDelivery
  import opened WorkerResults

  lemma {:induction false} LeadsOneMore(s: State, es: seq<Event>, t: State, e: Event)
    requires Leads(s, es, t) && Enabled(t, e)
    ensures Leads(s, es + [e], Apply(t, e))
    decreases |es|
  {
    if es == [] {
      assert (es + [e])[1..] == [];
    } else {
      LeadsOneMore(Apply(s, es[0]), es[1..], t, e);
      assert (es + [e])[1..] == es[1..] + [e];
    }
  }

  /** Reachable states are closed under events. */
  lemma Do(s: State, e: Event) returns (t: State)
    requires Reachable(s) && Enabled(s, e)
    ensures t == Apply(s, e) && Reachable(t)
  {
    var es :| Leads(Init(), es, s);
    LeadsOneMore(Init(), es, s, e);
    t := Apply(s, e);
  }

  /** One client has created worker 0 and made it idle; it is about to look for a result channel. */
  lemma OneIdleWorker(key: Key, task: TaskId) returns (s: State)
    ensures Reachable(s) && s.wlock == None && s.sessions == 1 && s.chans == [] && s.log == [] && s.breakers == []
    ensures s.clients == [Client(key, task, FindChan(0))] && s.registry == map[key := 0]
    ensures s.workers == [Worker(key, true, map[], false, Select, 0, true, 0)]
  {
    assert Leads(Init(), [], Init());
    s := Do(Init(), CallRun(key, task));
    s := Do(s, ClientEvent(0, ReadRegistry));
    s := Do(s, ClientEvent(0, CreateWorker));
    s := Do(s, ClientEvent(0, CountWorker));
    s := Do(s, ListenerEvent(0, SendFirstToken));
  }

  /** A client can hold the token of a worker whose listener has already left its loop. */
  lemma StrandedHolder(key: Key, task: TaskId) returns (s: State)
    ensures Reachable(s) && |s.clients| == 1 && |s.workers| == 1
    ensures s.clients[0].pc.HandOver? && s.clients[0].pc.w == 0 && s.workers[0].listener.Leaving()
  {
    s := OneIdleWorker(key, task);
    s := Do(s, ClientEvent(0, ReadTable));
    s := Do(s, ClientEvent(0, TakeToken));
    s := Do(s, ClientEvent(0, RegisterChan));
    s := Do(s, ListenerEvent(0, IdleTimeout));
  }

  /** A `Break` can find the token of an idle worker, and then takes it for good. */
  lemma BreakFindsToken(key: Key, task: TaskId) returns (s: State, t: State)
    ensures Reachable(s) && BreakerEnabled(s, 0, TryToken) && s.breakers[0].pc == BreakSelect(0)
    ensures |s.workers| == 1 && s.workers[0].signal && s.workers[0].listener.Select?
    ensures Reachable(t) && t == Apply(s, BreakerEvent(0, TryToken)) && t.workers[0].broken == 1 && !t.workers[0].signal
  {
    s := OneIdleWorker(key, task);
    s := Do(s, CallBreak(key));
    s := Do(s, BreakerEvent(0, ReadForBreak));
    t := Do(s, BreakerEvent(0, TryToken));
  }

  /** Two clients with the same task and key, and the workers they have created. */
  function Scene(key: Key, task: TaskId, registry: map<Key, nat>, sessions: int, workers: seq<Worker>,
                 chans: seq<Chan>, pc0: ClientPc, pc1: ClientPc, log: seq<Execution>): State {
    State(None, registry, sessions, workers, chans, [Client(key, task, pc0), Client(key, task, pc1)], [], log)
  }

  function NewWorker(key: Key, signal: bool, listener: Listener, creator: nat): Worker {
    Worker(key, signal, map[], false, listener, creator, true, 0)
  }

  lemma BothMissed(key: Key, task: TaskId) returns (s: State)
    ensures Reachable(s) && s == Scene(key, task, map[], 0, [], [], Create, Create, [])
  {
    assert Leads(Init(), [], Init());
    s := Do(Init(), CallRun(key, task));
    s := Do(s, CallRun(key, task));
    s := Do(s, ClientEvent(0, ReadRegistry));
    s := Do(s, ClientEvent(1, ReadRegistry));
  }

  /** Two clients that both miss the registry create two workers for one key. */
  lemma TwoWorkersForOneKey(key: Key, task: TaskId) returns (s: State)
    ensures Reachable(s)
    ensures s == Scene(key, task, map[key := 1], 2,
                       [NewWorker(key, false, FirstToken, 0), NewWorker(key, false, FirstToken, 1)],
                       [], FindChan(0), FindChan(1), [])
  {
    s := BothMissed(key, task);
    s := Do(s, ClientEvent(0, CreateWorker));
    s := Do(s, ClientEvent(0, CountWorker));
    s := Do(s, ClientEvent(1, CreateWorker));
    s := Do(s, ClientEvent(1, CountWorker));
  }

  /** When the elder of them leaves, it deletes the younger's entry: a worker that is waiting for
      work can be absent from the registry. */
  lemma LiveWorkerUnregistered(key: Key, task: TaskId) returns (s: State)
    ensures Reachable(s) && |s.workers| == 2 && s.workers[1].key == key
    ensures s.workers[1].listener.Select? && key !in s.registry
  {
    s := TwoWorkersForOneKey(key, task);
    s := Do(s, ListenerEvent(0, SendFirstToken));
    s := Do(s, ListenerEvent(1, SendFirstToken));
    s := Do(s, ListenerEvent(0, IdleTimeout));
    s := Do(s, ListenerEvent(0, Unregister));
  }

  function Busy(key: Key, table: map<TaskId, nat>, started: bool, listener: Listener): Worker {
    Worker(key, false, table, started, listener, 0, true, 0)
  }

  lemma BothAwaitToken(key: Key, task: TaskId) returns (s: State)
    ensures Reachable(s)
    ensures s ==
      Scene(key, task, map[key := 0], 1, [NewWorker(key, true, Select, 0)], [], AwaitToken(0), AwaitToken(0), [])
  {
    s := OneIdleWorker(key, task);
    s := Do(s, CallRun(key, task));
    s := Do(s, ClientEvent(1, ReadRegistry));
    s := Do(s, ClientEvent(0, ReadTable));
    s := Do(s, ClientEvent(1, ReadTable));
  }

  lemma FirstStarted(key: Key, task: TaskId) returns (s: State)
    ensures Reachable(s)
    ensures s == Scene(key, task, map[key := 0], 1, [Busy(key, map[task := 0], true, Running(Work(task, 0)))],
                       [Chan(0, task, None, false, [], [])], AwaitResult(0, 0), AwaitToken(0), [])
  {
    s := BothAwaitToken(key, task);
    s := Do(s, ClientEvent(0, TakeToken));
    s := Do(s, ClientEvent(0, RegisterChan));
    s := Do(s, ClientEvent(0, HandWork));
    s := Do(s, ListenerEvent(0, Start));
  }

  lemma FirstSent(key: Key, task: TaskId) returns (s: State)
    ensures Reachable(s)
    ensures var res := Result(0, false);
      s == Scene(key, task, map[key := 0], 1, [Busy(key, map[task := 0], true, Finishing(res))],
                 [Chan(0, task, Some(res), true, [res], [])], AwaitResult(0, 0), AwaitToken(0), [Execution(0, task, 0)])
  {
    s := FirstStarted(key, task);
    s := Do(s, ListenerEvent(0, Execute(false)));
    s := Do(s, ListenerEvent(0, FindOutChan));
    s := Do(s, ListenerEvent(0, SendResult));
    assert s.chans[0].sent == [Result(0, false)];
  }

  lemma FirstReceived(key: Key, task: TaskId) returns (s: State)
    ensures Reachable(s)
    ensures var res := Result(0, false);
      s == Scene(key, task, map[key := 0], 1, [Busy(key, map[task := 0], false, Select).(signal := true)],
                 [Chan(0, task, None, true, [res], [0])], Forget(0, 0, res), AwaitToken(0), [Execution(0, task, 0)])
  {
    s := FirstSent(key, task);
    s := Do(s, ListenerEvent(0, Finish));
    s := Do(s, ListenerEvent(0, ReturnToken));
    s := Do(s, ClientEvent(0, ReceiveResult));
    assert s.chans[0].receivers == [0];
  }

  /** The second client has handed its work over; the first deletes the entry only now. */
  lemma LateDelete(key: Key, task: TaskId) returns (s: State)
    ensures Reachable(s)
    ensures var res := Result(0, false);
      s == Scene(key, task, map[key := 0], 1, [Busy(key, map[], false, Starting(Work(task, 1)))],
                 [Chan(0, task, None, true, [res], [0]), Chan(0, task, None, false, [], [])],
                 Replied(0, 0, Executed(res)), AwaitResult(0, 1), [Execution(0, task, 0)])
  {
    s := FirstReceived(key, task);
    s := Do(s, ClientEvent(1, TakeToken));
    s := Do(s, ClientEvent(1, RegisterChan));
    s := Do(s, ClientEvent(1, HandWork));
    s := Do(s, ClientEvent(0, DeleteEntry));
  }

  /** A late delete by task can remove the channel of a work that is still running: its listener is
      about to look up a channel that is gone, while the client of that work waits for it. */
  lemma ResultAboutToBeLost(key: Key, task: TaskId) returns (s: State)
    ensures Reachable(s) && |s.workers| == 1 && |s.clients| == 2
    ensures s.clients[1] == Client(key, task, AwaitResult(0, 1))
    ensures s.workers[0].listener.LookingUp? && s.workers[0].listener.work == Work(task, 1)
    ensures task !in s.workers[0].outChans
  {
    s := LateDelete(key, task);
    s := Do(s, ListenerEvent(0, Start));
    s := Do(s, ListenerEvent(0, Execute(false)));
  }

  // ---------- Results that are sent and forgotten ----------

  /** Reachable by a run in which calls for one task on one worker never overlap, in the sense of WorkerDelivery. */
  ghost predicate SerialReachable(s: State) {
    exists es :: Leads(Init(), es, s) && AlwaysSerial(Init(), es)
  }

  lemma {:induction false} SerialOneMore(s: State, es: seq<Event>, t: State, e: Event)
    requires Leads(s, es, t) && AlwaysSerial(s, es) && Enabled(t, e) && Serial(Apply(t, e))
    ensures AlwaysSerial(s, es + [e])
    decreases |es|
  {
    if es == [] {
      assert (es + [e])[1..] == [] && AlwaysSerial(Apply(t, e), []);
    } else {
      SerialOneMore(Apply(s, es[0]), es[1..], t, e);
      assert (es + [e])[1..] == es[1..] + [e];
    }
  }

  lemma OneActive(s: State, c: nat)
    requires forall d: nat, w: nat | d < |s.clients| && Active(s.clients[d], w) :: d == c
    ensures Serial(s)
  {
  }

  lemma DoSerial(s: State, e: Event, c: nat) returns (t: State)
    requires SerialReachable(s) && Enabled(s, e)
    requires forall d: nat, w: nat | d < |Apply(s, e).clients| && Active(Apply(s, e).clients[d], w) :: d == c
    ensures t == Apply(s, e) && SerialReachable(t)
  {
    var es :| Leads(Init(), es, s) && AlwaysSerial(Init(), es);
    OneActive(Apply(s, e), c);
    LeadsOneMore(Init(), es, s, e);
    SerialOneMore(Init(), es, s, e);
    t := Apply(s, e);
  }

  lemma OneWorkerSerially(key: Key, task: TaskId) returns (s: State)
    ensures SerialReachable(s) && s.wlock == None && s.sessions == 1 && s.chans == [] && s.log == [] && s.breakers == []
    ensures s.clients == [Client(key, task, FindChan(0))] && s.registry == map[key := 0]
    ensures s.workers == [Worker(key, true, map[], false, Select, 0, true, 0)]
  {
    assert Leads(Init(), [], Init()) && AlwaysSerial(Init(), []);
    s := DoSerial(Init(), CallRun(key, task), 0);
    s := DoSerial(s, ClientEvent(0, ReadRegistry), 0);
    s := DoSerial(s, ClientEvent(0, CreateWorker), 0);
    s := DoSerial(s, ClientEvent(0, CountWorker), 0);
    s := DoSerial(s, ListenerEvent(0, SendFirstToken), 0);
  }

  /** Two calls for one task wait for the token; neither is active yet. */
  lemma BothAwaitSerially(key: Key, task: TaskId) returns (s: State)
    ensures SerialReachable(s)
    ensures s ==
      Scene(key, task, map[key := 0], 1, [NewWorker(key, true, Select, 0)], [], AwaitToken(0), AwaitToken(0), [])
  {
    s := OneWorkerSerially(key, task);
    s := DoSerial(s, CallRun(key, task), 0);
    s := DoSerial(s, ClientEvent(1, ReadRegistry), 0);
    s := DoSerial(s, ClientEvent(0, ReadTable), 0);
    s := DoSerial(s, ClientEvent(1, ReadTable), 0);
  }

  lemma FirstHandsOver(key: Key, task: TaskId) returns (s: State)
    ensures SerialReachable(s)
    ensures s == Scene(key, task, map[key := 0], 1, [Busy(key, map[task := 0], false, Starting(Work(task, 0)))],
                       [Chan(0, task, None, false, [], [])], AwaitResult(0, 0), AwaitToken(0), [])
  {
    s := BothAwaitSerially(key, task);
    s := DoSerial(s, ClientEvent(0, TakeToken), 0);
    s := DoSerial(s, ClientEvent(0, RegisterChan), 0);
    s := DoSerial(s, ClientEvent(0, HandWork), 0);
  }

  /** The first has handed its work over and given up waiting. */
  lemma FirstGaveUp(key: Key, task: TaskId) returns (s: State)
    ensures SerialReachable(s)
    ensures s == Scene(key, task, map[key := 0], 1, [Busy(key, map[task := 0], true, Running(Work(task, 0)))],
                       [Chan(0, task, None, false, [], [])], Replied(0, 0, WaitPage), AwaitToken(0), [])
  {
    s := FirstHandsOver(key, task);
    s := DoSerial(s, ListenerEvent(0, Start), 0);
    s := DoSerial(s, ClientEvent(0, ResultTimeout), 0);
  }

  /** Its result was sent meanwhile. */
  lemma SentTooLate(key: Key, task: TaskId) returns (s: State)
    ensures SerialReachable(s)
    ensures var res := Result(0, false);
      s == Scene(key, task, map[key := 0], 1, [Busy(key, map[task := 0], true, Finishing(res))],
                 [Chan(0, task, Some(res), true, [res], [])], Replied(0, 0, WaitPage), AwaitToken(0),
                 [Execution(0, task, 0)])
  {
    s := FirstGaveUp(key, task);
    s := DoSerial(s, ListenerEvent(0, Execute(false)), 0);
    s := DoSerial(s, ListenerEvent(0, FindOutChan), 0);
    s := DoSerial(s, ListenerEvent(0, SendResult), 0);
    assert s.chans[0].sent == [Result(0, false)];
  }

  /** The second has taken the token. */
  lemma SentAndUnread(key: Key, task: TaskId) returns (s: State)
    ensures SerialReachable(s)
    ensures var res := Result(0, false);
      s == Scene(key, task, map[key := 0], 1, [Busy(key, map[task := 0], false, Select)],
                 [Chan(0, task, Some(res), true, [res], [])], Replied(0, 0, WaitPage), Register(0),
                 [Execution(0, task, 0)])
  {
    s := SentTooLate(key, task);
    s := DoSerial(s, ListenerEvent(0, Finish), 0);
    s := DoSerial(s, ListenerEvent(0, ReturnToken), 0);
    s := DoSerial(s, ClientEvent(1, TakeToken), 1);
  }

  /** It registers its own channel over the entry of the first: the result of the first is forgotten, and the
      request is executed again, although the two were never active together. */
  lemma ResultForgotten(key: Key, task: TaskId) returns (s: State)
    ensures SerialReachable(s) && Forgotten(s, 0) && s.chans[0].task == task
    ensures |s.clients| == 2 && s.clients[1] == Client(key, task, HandOver(0, 1)) && ClientEnabled(s, 1, HandWork)
  {
    s := SentAndUnread(key, task);
    s := DoSerial(s, ClientEvent(1, RegisterChan), 1);
  }

  /** A listener that times out empties its table, with a result in it that was sent. */
  lemma ResultPurged(key: Key, task: TaskId) returns (s: State)
    ensures Reachable(s) && Forgotten(s, 0) && s.chans[0].task == task
    ensures |s.workers| == 1 && s.workers[0].listener.Uncounting?
  {
    s := SentTooLate(key, task);
    s := Do(s, ListenerEvent(0, Finish));
    s := Do(s, ListenerEvent(0, ReturnToken));
    s := Do(s, ListenerEvent(0, IdleTimeout));
    s := Do(s, ListenerEvent(0, Unregister));
    s := Do(s, ListenerEvent(0, Close));
    s := Do(s, ListenerEvent(0, Purge));
  }
}
