/** What a call of `Run` is answered: the answer says how far it got. */
module WorkerReplies {
  import opened WorkerProtocol
  import opened WorkerInvariant
  import opened WorkerStep
  import opened WorkerSafety
  import opened WorkerRegistry
  import opened WorkerExecution

  predicate Waits(s: State, c: nat) {
    c < |s.clients| && s.clients[c].pc.AwaitResult?
  }

  /** Somewhere in the run the call waits for a result: its work was handed over, or its task's channel found. */
  ghost predicate EverWaits(s: State, es: seq<Event>, c: nat)
    decreases |es|
  {
    Waits(s, c) || (es != [] && Enabled(s, es[0]) && EverWaits(Apply(s, es[0]), es[1..], c))
  }

  predicate Receives(es: seq<Event>, c: nat) {
    ClientEvent(c, ReceiveResult) in es
  }

  /** The call has not got as far as waiting for a result. */
  predicate Early(pc: ClientPc) {
    pc.Lookup? || pc.Create? || pc.Counting? || pc.FindChan? || pc.AwaitToken? || pc.Register? || pc.HandOver?
  }

  lemma CallStep(s: State, e: Event, c: nat)
    requires Enabled(s, e) && c < |s.clients|
    ensures c < |Apply(s, e).clients|
    ensures var (p, q) := (s.clients[c].pc, Apply(s, e).clients[c].pc);
      && (Early(p) ==> e != ClientEvent(c, ReceiveResult)
                       && (Early(q) || q.AwaitResult? || (q.Replied? && q.reply.BreakPage?)))
      && (p.AwaitResult? ==> if e == ClientEvent(c, ReceiveResult) then q.Forget?
                             else q.AwaitResult? || (q.Replied? && q.reply.WaitPage?))
      && (p.Forget? ==> e != ClientEvent(c, ReceiveResult) && (q == p || (q.Replied? && q.reply == Executed(p.res))))
      && (p.Replied? ==> e != ClientEvent(c, ReceiveResult) && q == p)
  {
    match e
    case ClientEvent(d, step) =>
    case ListenerEvent(w, step) =>
    case _ => OthersChange(s, e);
  }

  lemma {:induction false} Answered(s: State, es: seq<Event>, t: State, c: nat)
    requires Leads(s, es, t) && c < |s.clients|
    ensures c < |t.clients|
    ensures var (p, q) := (s.clients[c].pc, t.clients[c].pc); q.Replied? ==>
      && (Early(p) ==> (q.reply.BreakPage? <==> !EverWaits(s, es, c)))
      && (Early(p) || p.AwaitResult? ==> (q.reply.Executed? <==> Receives(es, c)))
      && (p.AwaitResult? ==> !q.reply.BreakPage?)
      && (p.Forget? ==> q.reply == Executed(p.res) && !Receives(es, c))
      && (p.Replied? ==> q == p && !EverWaits(s, es, c) && !Receives(es, c))
    decreases |es|
  {
    if es != [] {
      CallStep(s, es[0], c);
      Answered(Apply(s, es[0]), es[1..], t, c);
      assert es == [es[0]] + es[1..];
    }
  }

  /** A call that returns is told to offer a break exactly if it never came to wait for a result, gets a result
      exactly if it received one, and is told to go on waiting otherwise. */
  lemma RepliesExactly(s: State, es: seq<Event>, t: State, c: nat)
    requires Leads(s, es, t) && c < |s.clients| && s.clients[c].pc.Lookup?
    requires c < |t.clients| && t.clients[c].pc.Replied?
    ensures var reply := t.clients[c].pc.reply;
      && (reply.BreakPage? <==> !EverWaits(s, es, c))
      && (reply.Executed? <==> Receives(es, c))
      && (reply.WaitPage? <==> EverWaits(s, es, c) && !Receives(es, c))
  {
    Answered(s, es, t, c);
  }

  // ---------- Interrupted executions ----------

  /** An execution that was interrupted is the worker's last, in every continuation; behind one that was not
      another can follow, if the worker is registered. */
  lemma InterruptedIsLast(s: State, w: nat, interrupted: bool)
    requires Reachable(s) && ListenerEnabled(s, w, Execute(interrupted))
    ensures var t := Apply(s, ListenerEvent(w, Execute(interrupted)));
      && (interrupted ==> !CanExecute(t, w))
      && (!interrupted && Registered(s, w) ==> CanExecute(t, w))
  {
    var e := ListenerEvent(w, Execute(interrupted));
    var t := Apply(s, e);
    ReachableInv(s);
    StepKeepsInv(s, e);
    if interrupted {
      forall es, u | Leads(t, es, u) ensures Idle(t, u, w) { FinishedForever(t, es, u, w); }
    } else if Registered(s, w) {
      LookingUpExecutes(t, w);
    }
  }
}
