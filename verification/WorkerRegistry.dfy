/** Which workers the registry knows, and when a key has one live worker only. */
module WorkerRegistry {
  import opened WorkerProtocol
  import opened WorkerInvariant
  import opened WorkerStep

  predicate Registered(s: State, w: nat) {
    w < |s.workers| && s.workers[w].key in s.registry && s.registry[s.workers[w].key] == w
  }

  /** A worker is live until its listener has unregistered. */
  predicate Live(s: State, w: nat) {
    w < |s.workers| && !s.workers[w].listener.Unregistered()
  }

  /** The event is a creation under the key `k`, or the unregister step of a worker with that key. */
  predicate Disturbs(s: State, e: Event, k: Key) {
    match e
    case ClientEvent(c, step) => step.CreateWorker? && c < |s.clients| && s.clients[c].key == k
    case ListenerEvent(v, step) => step.Unregister? && v < |s.workers| && s.workers[v].key == k
    case _ => false
  }

  /** One event: a worker stays registered exactly when the event is none of those two, and is never
      registered again once it is not. */
  lemma RegisteredStep(s: State, e: Event, w: nat)
    requires Inv(s) && Enabled(s, e) && w < |s.workers|
    ensures w < |Apply(s, e).workers| && Apply(s, e).workers[w].key == s.workers[w].key
    ensures Registered(Apply(s, e), w) <==> Registered(s, w) && !Disturbs(s, e, s.workers[w].key)
  {
    match e
    case ClientEvent(c, step) => ClientRegisters(s, c, step, w);
    case ListenerEvent(v, step) => ListenerRegisters(s, v, step, w);
    case _ =>
  }

  lemma ClientRegisters(s: State, c: nat, step: ClientStep, w: nat)
    requires ClientEnabled(s, c, step) && w < |s.workers|
    ensures var t := ClientApply(s, c, step);
      && w < |t.workers| && t.workers[w].key == s.workers[w].key
      && (Registered(t, w) <==> Registered(s, w) && !(step.CreateWorker? && s.clients[c].key == s.workers[w].key))
  {
  }

  lemma ListenerRegisters(s: State, v: nat, step: ListenerStep, w: nat)
    requires ListenerEnabled(s, v, step) && w < |s.workers|
    ensures var t := ListenerApply(s, v, step);
      && w < |t.workers| && t.workers[w].key == s.workers[w].key
      && (Registered(t, w) <==> Registered(s, w) && !(step.Unregister? && s.workers[v].key == s.workers[w].key))
  {
  }

  /** None of the events creates a worker under `k` or unregisters one. */
  ghost predicate Undisturbed(s: State, es: seq<Event>, k: Key)
    decreases |es|
  {
    es == [] || (Enabled(s, es[0]) && !Disturbs(s, es[0], k) && Undisturbed(Apply(s, es[0]), es[1..], k))
  }

  /** Over any run a worker stays registered exactly as long as nobody creates a worker for its key and no
      worker of its key unregisters. */
  lemma {:induction false} RegisteredExactly(s: State, es: seq<Event>, t: State, w: nat)
    requires Inv(s) && Leads(s, es, t) && w < |s.workers|
    ensures Registered(t, w) <==> Registered(s, w) && Undisturbed(s, es, s.workers[w].key)
    decreases |es|
  {
    if es != [] {
      var u := Apply(s, es[0]);
      RegisteredStep(s, es[0], w);
      StepKeepsInv(s, es[0]);
      RegisteredExactly(u, es[1..], t, w);
    }
  }

  // ---------- The only worker of its key ----------

  /** No other worker was ever created for its key. */
  predicate Sole(s: State, w: nat) {
    w < |s.workers| && forall v: nat | v < |s.workers| && s.workers[v].key == s.workers[w].key :: v == w
  }

  predicate SolesRegistered(s: State) {
    forall w: nat | w < |s.workers| && Sole(s, w) :: Registered(s, w) <==> Live(s, w)
  }

  lemma LiveStep(s: State, e: Event, w: nat)
    requires Enabled(s, e) && w < |s.workers| && w < |Apply(s, e).workers|
    ensures Live(Apply(s, e), w) <==> Live(s, w) && e != ListenerEvent(w, Unregister)
  {
    match e
    case ClientEvent(c, step) => ClientKeepsLive(s, c, step, w);
    case ListenerEvent(v, step) => ListenerKeepsLive(s, v, step, w);
    case _ =>
  }

  lemma ClientKeepsLive(s: State, c: nat, step: ClientStep, w: nat)
    requires ClientEnabled(s, c, step) && w < |s.workers|
    ensures Live(ClientApply(s, c, step), w) <==> Live(s, w)
  {
  }

  lemma ListenerKeepsLive(s: State, v: nat, step: ListenerStep, w: nat)
    requires ListenerEnabled(s, v, step) && w < |s.workers|
    ensures Live(ListenerApply(s, v, step), w) <==> Live(s, w) && !(v == w && step.Unregister?)
  {
  }

  lemma BornLive(s: State, e: Event, w: nat)
    requires Enabled(s, e) && |s.workers| <= w < |Apply(s, e).workers|
    ensures Live(Apply(s, e), w) && Registered(Apply(s, e), w) && w == |s.workers|
    ensures e.ClientEvent? && e.clientStep == CreateWorker && Apply(s, e).workers[w].key == s.clients[e.c].key
  {
  }

  lemma SoleStep(s: State, e: Event, w: nat)
    requires Inv(s) && Enabled(s, e) && SolesRegistered(s) && Sole(Apply(s, e), w)
    ensures Registered(Apply(s, e), w) <==> Live(Apply(s, e), w)
  {
    var t := Apply(s, e);
    if w >= |s.workers| {
      BornLive(s, e, w);
    } else {
      forall v: nat | v < |s.workers| ensures v < |t.workers| && t.workers[v].key == s.workers[v].key {
        RegisteredStep(s, e, v);
      }
      assert Sole(s, w);
      RegisteredStep(s, e, w);
      LiveStep(s, e, w);
      if Disturbs(s, e, s.workers[w].key) && e.ClientEvent? { assert t.workers[|s.workers|].key == s.workers[w].key; }
    }
  }

  lemma {:induction false} SolesStayRegistered(s: State, es: seq<Event>, t: State)
    requires Inv(s) && SolesRegistered(s) && Leads(s, es, t)
    ensures SolesRegistered(t)
    decreases |es|
  {
    if es != [] {
      var u := Apply(s, es[0]);
      forall w: nat | w < |u.workers| && Sole(u, w) ensures Registered(u, w) <==> Live(u, w) {
        SoleStep(s, es[0], w);
      }
      StepKeepsInv(s, es[0]);
      SolesStayRegistered(u, es[1..], t);
    }
  }

  lemma InitInv()
    ensures Inv(Init())
  {
    assert Leads(Init(), [], Init());
    ReachableInv(Init());
  }

  /** In every reachable state the only worker of a key is registered exactly until it unregisters. */
  lemma SoleIsRegistered(s: State, w: nat)
    requires Reachable(s) && Sole(s, w)
    ensures Registered(s, w) <==> Live(s, w)
  {
    var es :| Leads(Init(), es, s);
    InitInv();
    SolesStayRegistered(Init(), es, s);
  }

  // ---------- One live worker for each key ----------

  ghost predicate OneEach(s: State) {
    forall v: nat, w: nat | Live(s, v) && Live(s, w) && s.workers[v].key == s.workers[w].key :: v == w
  }

  /** The creation leaves two live workers for its key exactly when there was a live one. */
  lemma CreationMakesTwo(s: State, c: nat)
    requires OneEach(s) && ClientEnabled(s, c, CreateWorker)
    ensures !OneEach(ClientApply(s, c, CreateWorker)) <==>
      exists v: nat :: Live(s, v) && s.workers[v].key == s.clients[c].key
  {
    var t := ClientApply(s, c, CreateWorker);
    var w := |s.workers|;
    assert Live(t, w);
    assert forall v: nat | v < w :: Live(t, v) <==> Live(s, v);
    if v: nat :| Live(s, v) && s.workers[v].key == s.clients[c].key {
      assert Live(t, v) && t.workers[v].key == t.workers[w].key && v != w;
    }
  }

  /** A creation that replaces an entry, which the code does not look for after it has the write lock. */
  predicate Overwrites(s: State, e: Event) {
    e.ClientEvent? && e.clientStep.CreateWorker? && e.c < |s.clients| && s.clients[e.c].key in s.registry
  }

  ghost predicate NeverOverwrites(s: State, es: seq<Event>)
    decreases |es|
  {
    es == [] || (Enabled(s, es[0]) && !Overwrites(s, es[0]) && NeverOverwrites(Apply(s, es[0]), es[1..]))
  }

  /** In every state of the run each key has at most one live worker. */
  ghost predicate AlwaysOneEach(s: State, es: seq<Event>)
    decreases |es|
  {
    OneEach(s) && (es == [] || (Enabled(s, es[0]) && AlwaysOneEach(Apply(s, es[0]), es[1..])))
  }

  ghost predicate LiveAreRegistered(s: State) {
    forall w: nat | Live(s, w) :: Registered(s, w)
  }

  lemma LiveStayRegistered(s: State, e: Event)
    requires Inv(s) && Enabled(s, e) && LiveAreRegistered(s) && !Overwrites(s, e)
    ensures LiveAreRegistered(Apply(s, e))
  {
    var t := Apply(s, e);
    forall w: nat | Live(t, w) ensures Registered(t, w) {
      if w >= |s.workers| {
        BornLive(s, e, w);
      } else {
        LiveStep(s, e, w);
        RegisteredStep(s, e, w);
        if e.ListenerEvent? && e.listenerStep.Unregister? {
          assert Live(s, e.w) && Registered(s, e.w) && e.w != w;
        }
      }
    }
  }

  lemma OverwriteMakesTwo(s: State, e: Event)
    requires Inv(s) && Enabled(s, e) && OneEach(s) && Overwrites(s, e)
    ensures !OneEach(Apply(s, e))
  {
    var k := s.clients[e.c].key;
    assert Live(s, s.registry[k]) && s.workers[s.registry[k]].key == k;
    CreationMakesTwo(s, e.c);
  }

  lemma {:induction false} OneEachExactly(s: State, es: seq<Event>, t: State)
    requires Inv(s) && LiveAreRegistered(s) && Leads(s, es, t)
    ensures AlwaysOneEach(s, es) <==> NeverOverwrites(s, es)
    ensures NeverOverwrites(s, es) ==> LiveAreRegistered(t)
    decreases |es|
  {
    if es != [] {
      var u := Apply(s, es[0]);
      StepKeepsInv(s, es[0]);
      if Overwrites(s, es[0]) {
        OverwriteMakesTwo(s, es[0]);
      } else {
        LiveStayRegistered(s, es[0]);
        OneEachExactly(u, es[1..], t);
      }
    }
  }

  /** Over any run each key has at most one live worker at all times exactly when no creation replaces an
      entry of the registry, and then every live worker is registered. */
  lemma OneLivePerKey(es: seq<Event>, t: State)
    requires Leads(Init(), es, t)
    ensures AlwaysOneEach(Init(), es) <==> NeverOverwrites(Init(), es)
    ensures NeverOverwrites(Init(), es) ==> forall w: nat | Live(t, w) :: Registered(t, w)
  {
    InitInv();
    OneEachExactly(Init(), es, t);
  }

  // ---------- What the callers can do about it ----------

  /** Two calls of `Run` for one key have missed the registry and not yet created their workers. */
  ghost predicate TwoCreators(s: State) {
    exists c: nat, d: nat :: c != d && Creating(s, c) && Creating(s, d) && s.clients[c].key == s.clients[d].key
  }

  predicate Creating(s: State, c: nat) {
    c < |s.clients| && s.clients[c].pc.Create?
  }

  ghost predicate NeverTwoCreators(s: State, es: seq<Event>)
    decreases |es|
  {
    !TwoCreators(s) && (es == [] || (Enabled(s, es[0]) && NeverTwoCreators(Apply(s, es[0]), es[1..])))
  }

  ghost predicate CreatorsMiss(s: State) {
    forall c: nat | Creating(s, c) :: s.clients[c].key !in s.registry
  }

  lemma CreatorsStillMiss(s: State, e: Event)
    requires Enabled(s, e) && CreatorsMiss(s) && !TwoCreators(s)
    ensures CreatorsMiss(Apply(s, e))
  {
    var t := Apply(s, e);
    forall c: nat | Creating(t, c) ensures t.clients[c].key !in t.registry {
      if c < |s.clients| && Creating(s, c) && e.ClientEvent? && Creating(s, e.c) && e.c != c {
        assert s.clients[e.c].key != s.clients[c].key;
      }
    }
  }

  lemma {:induction false} OneCreatorNeverOverwrites(s: State, es: seq<Event>, t: State)
    requires CreatorsMiss(s) && Leads(s, es, t) && NeverTwoCreators(s, es)
    ensures NeverOverwrites(s, es)
    decreases |es|
  {
    if es != [] {
      CreatorsStillMiss(s, es[0]);
      assert Overwrites(s, es[0]) ==> Creating(s, es[0].c);
      OneCreatorNeverOverwrites(Apply(s, es[0]), es[1..], t);
    }
  }

  /** As long as calls that create for one key do not overlap, each key has one live worker at most, and
      every live worker is registered. */
  lemma OneCreatorAtATime(es: seq<Event>, t: State)
    requires Leads(Init(), es, t) && NeverTwoCreators(Init(), es)
    ensures AlwaysOneEach(Init(), es) && forall w: nat | Live(t, w) :: Registered(t, w)
  {
    OneCreatorNeverOverwrites(Init(), es, t);
    OneLivePerKey(es, t);
  }
}
