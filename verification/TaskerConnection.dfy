/**
 The connection of one tasker: `Run` (with `connect`, `evalSessionID` and `disconnect`) and
 `CloseAndFree`, executed by the worker's goroutine one field write at a time, while `Break` reads
 the same fields from another goroutine.

 The mutex `mt` is modelled exactly where the code takes it around these fields: `Break` holds it
 from entry to exit, and the goroutine of `Run` needs it free to set or clear the working flag and to
 clear the connection's fields. The writes of `connect` and `evalSessionID` do not take it. Sections
 that take `mt` only to keep the step log are left out, which allows more interleavings, not fewer.
 */
module TaskerConnection {
  import opened Options

  datatype Creds = Creds(user: string, pass: string, dsn: string)

  const NO_CREDS := Creds("", "", "")

  /** A connection object: whom it logged on as, the identifier of its database session, and whether
      it is connected now. A failed logon can leave an object that never was. */
  datatype Connection = Connection(creds: Creds, sid: string, connected: bool)

  datatype Logon = LogonOk(sid: string) | LogonNil | LogonDead

  /** Where `disconnect` goes on when it is done. */
  datatype After = ThenOpen(creds: Creds) | ThenFail(creds: Creds)

  datatype RunPc =
    | Idle                                     // no Run active
    | Comparing(creds: Creds)                  // connect: is the open connection the right one?
    | Testing(after: After)                    // disconnect: is there a connection, is it connected?
    | ClosingConn(after: After)
    | FreeingConn(after: After)
    | Clearing(after: After)
    | Opening(creds: Creds)
    | SettingUser(creds: Creds)
    | SettingPass(creds: Creds)
    | SettingDsn(creds: Creds)
    | ClearingSid(creds: Creds)                // evalSessionID
    | Querying(creds: Creds)
    | SettingSid(creds: Creds, sid: string)
    | Working(creds: Creds)                    // connected; executing the request
    | Returning(ok: bool, creds: Creds)
    | Panicked
    | Freed                                    // CloseAndFree done

  datatype BreakPc =
    | Outside
    | TestWorking
    | TestConn
    | TestConnected
    | TestSid
    | ReadUser
    | ReadPass(user: string)
    | ReadDsn(user: string, pass: string)
    | ReadSid(user: string, pass: string, dsn: string)
    | Killing(target: Target)
    | NilDereference

  /** What `Break` hands to killSession. */
  datatype Target = Target(creds: Creds, sid: string)

  /** `conn` indexes `conns`, every connection object so far; `fields` are connUserName, connUserPass
      and connStr; `kills` is what Break has handed over; `last` is how the latest Run ended. */
  datatype Tasker = Tasker(
    conn: Option<nat>, fields: Creds, sid: string, working: bool, conns: seq<Connection>,
    pc: RunPc, last: Option<(bool, Creds)>, breakPc: BreakPc, kills: seq<Target>)

  function NewTasker(): Tasker {
    Tasker(None, NO_CREDS, "", false, [], Idle, None, Outside, [])
  }

  datatype RunStep =
    | Begin(creds: Creds) | Compare | Test | CloseConn | FreeConn | ClearFields | Open(logon: Logon)
    | SetUser | SetPass | SetDsn | ClearSid | Query(ok: bool) | SetSid | Work(ok: bool) | Return
    | CloseAndFree

  datatype TaskerEvent = RunEvent(step: RunStep) | BreakEvent

  predicate RunEnabled(t: Tasker, step: RunStep) {
    var mtFree := t.breakPc.Outside?;
    match step
    case Begin(_) => t.pc.Idle? && mtFree
    case Compare => t.pc.Comparing?
    case Test => t.pc.Testing?
    case CloseConn => t.pc.ClosingConn? && t.conn.Some? && t.conn.value < |t.conns|
    case FreeConn => t.pc.FreeingConn?
    case ClearFields => t.pc.Clearing? && mtFree
    case Open(_) => t.pc.Opening?
    case SetUser => t.pc.SettingUser?
    case SetPass => t.pc.SettingPass?
    case SetDsn => t.pc.SettingDsn?
    case ClearSid => t.pc.ClearingSid?
    case Query(_) => t.pc.Querying? && t.conn.Some? && t.conn.value < |t.conns|
    case SetSid => t.pc.SettingSid?
    case Work(_) => t.pc.Working?
    case Return => t.pc.Returning? && mtFree
    case CloseAndFree => t.pc.Idle?
  }

  predicate IsConnected(t: Tasker) {
    t.conn.Some? && t.conn.value < |t.conns| && t.conns[t.conn.value].connected
  }

  function AfterDisconnect(after: After): RunPc {
    match after
    case ThenOpen(creds) => Opening(creds)
    case ThenFail(creds) => Returning(false, creds)
  }

  function CloseNow(t: Tasker): seq<Connection>
    requires t.conn.Some? && t.conn.value < |t.conns|
  {
    t.conns[t.conn.value := t.conns[t.conn.value].(connected := false)]
  }

  function RunApply(t: Tasker, step: RunStep): Tasker
    requires RunEnabled(t, step)
  {
    match step
    case Begin(creds) => t.(working := true, pc := Comparing(creds))
    case Compare =>
      if t.conn.None? || t.fields != t.pc.creds then t.(pc := Testing(ThenOpen(t.pc.creds)))
      else if IsConnected(t) then t.(pc := Working(t.pc.creds))
      else t.(pc := Panicked)
    case Test =>
      if t.conn.None? then t.(pc := AfterDisconnect(t.pc.after))
      else if IsConnected(t) then t.(pc := ClosingConn(t.pc.after))
      else t.(pc := FreeingConn(t.pc.after))
    case CloseConn => t.(conns := CloseNow(t), pc := Clearing(t.pc.after))
    case FreeConn => t.(pc := Clearing(t.pc.after))
    case ClearFields => t.(conn := None, fields := NO_CREDS, sid := "", pc := AfterDisconnect(t.pc.after))
    case Open(logon) =>
      var creds := t.pc.creds;
      (match logon
       case LogonOk(sid) =>
         t.(conns := t.conns + [Connection(creds, sid, true)], conn := Some(|t.conns|), pc := SettingUser(creds))
       case LogonNil => t.(conn := None, pc := Testing(ThenFail(creds)))
       case LogonDead =>
         t.(conns := t.conns + [Connection(creds, "", false)], conn := Some(|t.conns|), pc := Testing(ThenFail(creds))))
    case SetUser => t.(fields := t.fields.(user := t.pc.creds.user), pc := SettingPass(t.pc.creds))
    case SetPass => t.(fields := t.fields.(pass := t.pc.creds.pass), pc := SettingDsn(t.pc.creds))
    case SetDsn => t.(fields := t.fields.(dsn := t.pc.creds.dsn), pc := ClearingSid(t.pc.creds))
    case ClearSid => t.(sid := "", pc := Querying(t.pc.creds))
    case Query(ok) =>
      if ok then t.(pc := SettingSid(t.pc.creds, t.conns[t.conn.value].sid))
      else t.(pc := Testing(ThenFail(t.pc.creds)))
    case SetSid => t.(sid := t.pc.sid, pc := Working(t.pc.creds))
    case Work(ok) => t.(pc := if ok then Returning(true, t.pc.creds) else Testing(ThenFail(t.pc.creds)))
    case Return => t.(working := false, last := Some((t.pc.ok, t.pc.creds)), pc := Idle)
    case CloseAndFree =>
      // The connection is closed, but the field keeps pointing to it.
      if t.conn.Some? && t.conn.value < |t.conns| then t.(conns := CloseNow(t), pc := Freed) else t.(pc := Freed)
  }

  predicate BreakEnabled(t: Tasker) {
    !t.breakPc.NilDereference?
  }

  /** The next read of `Break`; entering takes `mt`, returning to Outside releases it. */
  function BreakApply(t: Tasker): Tasker
    requires BreakEnabled(t)
  {
    match t.breakPc
    case Outside => t.(breakPc := TestWorking)
    case TestWorking => t.(breakPc := if t.working then TestConn else Outside)
    case TestConn => t.(breakPc := if t.conn.Some? then TestConnected else Outside)
    case TestConnected =>
      if t.conn.None? then t.(breakPc := NilDereference)
      else t.(breakPc := if IsConnected(t) then TestSid else Outside)
    case TestSid => t.(breakPc := if t.sid != "" then ReadUser else Outside)
    case ReadUser => t.(breakPc := ReadPass(t.fields.user))
    case ReadPass(user) => t.(breakPc := ReadDsn(user, t.fields.pass))
    case ReadDsn(user, pass) => t.(breakPc := ReadSid(user, pass, t.fields.dsn))
    case ReadSid(user, pass, dsn) =>
      var target := Target(Creds(user, pass, dsn), t.sid);
      t.(breakPc := Killing(target), kills := t.kills + [target])
    case Killing(_) => t.(breakPc := Outside)
  }

  predicate TaskerEnabled(t: Tasker, e: TaskerEvent) {
    match e
    case RunEvent(step) => RunEnabled(t, step)
    case BreakEvent => BreakEnabled(t)
  }

  function TaskerApply(t: Tasker, e: TaskerEvent): Tasker
    requires TaskerEnabled(t, e)
  {
    match e
    case RunEvent(step) => RunApply(t, step)
    case BreakEvent => BreakApply(t)
  }

  ghost predicate TaskerLeads(t: Tasker, es: seq<TaskerEvent>, u: Tasker)
    decreases |es|
  {
    if es == [] then t == u
    else TaskerEnabled(t, es[0]) && TaskerLeads(TaskerApply(t, es[0]), es[1..], u)
  }

  ghost predicate TaskerReachable(t: Tasker) {
    exists es :: TaskerLeads(NewTasker(), es, t)
  }

  // ---------- The invariant ----------

  predicate Clean(t: Tasker) {
    t.conn.None? && t.fields == NO_CREDS && t.sid == ""
  }

  /** The stored credentials are those of the open connection, and so is the session identifier. */
  predicate Linked(t: Tasker) {
    IsConnected(t) && t.fields == t.conns[t.conn.value].creds && t.sid == t.conns[t.conn.value].sid
  }

  /** Between runs. */
  predicate Settled(t: Tasker) {
    Clean(t) || Linked(t)
  }

  /** True at every point: a session identifier is only there together with the credentials of the
      connection it belongs to. */
  predicate Coherent(t: Tasker) {
    && (t.conn.None? ==> Clean(t))
    && (t.conn.Some? ==> t.conn.value < |t.conns|)
    && (t.conn.Some? && t.sid != "" ==>
          t.fields == t.conns[t.conn.value].creds && t.sid == t.conns[t.conn.value].sid)
  }

  /** The connection for `creds` is open and its session identifier not yet stored. */
  predicate Opened(t: Tasker, creds: Creds) {
    IsConnected(t) && t.conns[t.conn.value].creds == creds && t.sid == ""
  }

  predicate PcOk(t: Tasker) {
    match t.pc
    case Idle => Settled(t)
    case Comparing(_) => Settled(t)
    case Testing(after) => after.ThenOpen? ==> Settled(t)
    case ClosingConn(_) => IsConnected(t)
    case FreeingConn(_) => t.conn.Some? && !IsConnected(t)
    case Clearing(_) => t.conn.Some? && !IsConnected(t)
    case Opening(_) => Clean(t)
    case SettingUser(creds) => Opened(t, creds)
    case SettingPass(creds) => Opened(t, creds) && t.fields.user == creds.user
    case SettingDsn(creds) => Opened(t, creds) && t.fields.user == creds.user && t.fields.pass == creds.pass
    case ClearingSid(creds) => Opened(t, creds) && t.fields == creds
    case Querying(creds) => Opened(t, creds) && t.fields == creds
    case SettingSid(creds, sid) => Opened(t, creds) && t.fields == creds && sid == t.conns[t.conn.value].sid
    case Working(creds) => Linked(t) && t.fields == creds
    case Returning(ok, creds) => if ok then Linked(t) && t.fields == creds else Clean(t)
    case Panicked => false
    case Freed => !IsConnected(t)
  }

  predicate LastOk(t: Tasker) {
    t.pc.Idle? ==>
      match t.last
      case None => Clean(t)
      case Some((ok, creds)) => if ok then Linked(t) && t.fields == creds else Clean(t)
  }

  predicate BreakPcOk(t: Tasker) {
    && (!t.breakPc.Outside? && !t.breakPc.TestWorking? ==> t.working)
    && (t.breakPc.TestConnected? || t.breakPc.TestSid? ==> t.conn.Some?)
    && (t.breakPc.ReadUser? || t.breakPc.ReadPass? || t.breakPc.ReadDsn? || t.breakPc.ReadSid? ==>
          t.conn.Some? && t.sid != "")
    && (t.breakPc.ReadPass? || t.breakPc.ReadDsn? || t.breakPc.ReadSid? ==> t.breakPc.user == t.fields.user)
    && (t.breakPc.ReadDsn? || t.breakPc.ReadSid? ==> t.breakPc.pass == t.fields.pass)
    && (t.breakPc.ReadSid? ==> t.breakPc.dsn == t.fields.dsn)
    && (t.breakPc.Killing? ==> t.conn.Some? && t.sid != "" && t.breakPc.target == Target(t.fields, t.sid))
    && !t.breakPc.NilDereference?
  }

  /** `k` names one of the connections of this tasker. */
  predicate OwnConnection(t: Tasker, k: Target) {
    exists i :: 0 <= i < |t.conns| && t.conns[i].creds == k.creds && t.conns[i].sid == k.sid
  }

  /** The only connection that can be open is the one the tasker points to. */
  predicate NoLeak(t: Tasker) {
    forall i | 0 <= i < |t.conns| && t.conns[i].connected :: t.conn == Some(i)
  }

  /** A stored session identifier is that of an open connection, until that is closed. */
  predicate SessionOk(t: Tasker) {
    t.conn.Some? && t.sid != "" && !t.pc.Clearing? && !t.pc.Freed? ==> IsConnected(t)
  }

  predicate WorkingOk(t: Tasker) {
    t.working <==> !t.pc.Idle? && !t.pc.Freed?
  }

  predicate KillsOk(t: Tasker) {
    forall j | 0 <= j < |t.kills| :: OwnConnection(t, t.kills[j])
  }

  predicate TaskerInv(t: Tasker) {
    Coherent(t) && PcOk(t) && LastOk(t) && NoLeak(t) && SessionOk(t) && WorkingOk(t) && BreakPcOk(t) && KillsOk(t)
  }

  /** The steps that end an old connection, and those around a Run. */
  predicate Ends(step: RunStep) {
    step.Test? || step.CloseConn? || step.FreeConn? || step.ClearFields? || step.CloseAndFree?
    || step.Begin? || step.Compare? || step.Return?
  }

  lemma EndKeepsPc(t: Tasker, step: RunStep)
    requires Coherent(t) && PcOk(t) && RunEnabled(t, step) && Ends(step)
    ensures PcOk(RunApply(t, step))
  {
  }

  lemma OpenKeepsPc(t: Tasker, step: RunStep)
    requires Coherent(t) && PcOk(t) && RunEnabled(t, step) && !Ends(step)
    ensures PcOk(RunApply(t, step))
  {
  }

  lemma RunKeepsCoherent(t: Tasker, step: RunStep)
    requires Coherent(t) && PcOk(t) && RunEnabled(t, step)
    ensures Coherent(RunApply(t, step))
  {
  }

  lemma RunKeepsLast(t: Tasker, step: RunStep)
    requires Coherent(t) && PcOk(t) && RunEnabled(t, step)
    ensures LastOk(RunApply(t, step))
  {
  }

  lemma RunKeepsNoLeak(t: Tasker, step: RunStep)
    requires Coherent(t) && PcOk(t) && NoLeak(t) && RunEnabled(t, step)
    ensures NoLeak(RunApply(t, step))
  {
  }

  lemma RunKeepsSession(t: Tasker, step: RunStep)
    requires Coherent(t) && PcOk(t) && SessionOk(t) && RunEnabled(t, step)
    ensures SessionOk(RunApply(t, step))
  {
  }

  /** Whatever `Break` has read so far stays what the fields say: no unlocked write of the running
      task can change a field once `Break` has seen a session identifier. */
  lemma RunKeepsBreak(t: Tasker, step: RunStep)
    requires Coherent(t) && PcOk(t) && WorkingOk(t) && BreakPcOk(t) && RunEnabled(t, step)
    ensures WorkingOk(RunApply(t, step)) && BreakPcOk(RunApply(t, step))
  {
  }

  lemma RunKeepsKills(t: Tasker, step: RunStep)
    requires KillsOk(t) && RunEnabled(t, step)
    ensures KillsOk(RunApply(t, step))
  {
    var u := RunApply(t, step);
    forall j | 0 <= j < |u.kills| ensures OwnConnection(u, u.kills[j]) {
      var k := t.kills[j];
      assert OwnConnection(t, k);
      var i :| 0 <= i < |t.conns| && t.conns[i].creds == k.creds && t.conns[i].sid == k.sid;
      assert u.conns[i].creds == k.creds && u.conns[i].sid == k.sid;
    }
  }

  /** `Break` changes only what it has read and the kills it asks for. */
  lemma BreakKeepsRun(t: Tasker)
    requires BreakEnabled(t)
    ensures var u := BreakApply(t); u == t.(breakPc := u.breakPc, kills := u.kills)
  {
  }

  lemma BreakKeepsReads(t: Tasker)
    requires Coherent(t) && BreakPcOk(t) && BreakEnabled(t)
    ensures BreakPcOk(BreakApply(t))
  {
  }

  lemma BreakKeepsKills(t: Tasker)
    requires Coherent(t) && BreakPcOk(t) && KillsOk(t) && BreakEnabled(t)
    ensures KillsOk(BreakApply(t))
  {
    var u := BreakApply(t);
    forall j | 0 <= j < |u.kills| ensures OwnConnection(u, u.kills[j]) {
      if j < |t.kills| {
        assert OwnConnection(t, t.kills[j]);
      } else {
        assert u.conns[t.conn.value].creds == u.kills[j].creds && u.conns[t.conn.value].sid == u.kills[j].sid;
      }
    }
  }

  lemma {:induction false} TaskerRunKeepsInv(t: Tasker, es: seq<TaskerEvent>, u: Tasker)
    requires TaskerInv(t) && TaskerLeads(t, es, u)
    ensures TaskerInv(u)
    decreases |es|
  {
    if es != [] {
      match es[0] {
        case RunEvent(step) =>
          if Ends(step) { EndKeepsPc(t, step); } else { OpenKeepsPc(t, step); }
          RunKeepsCoherent(t, step);
          RunKeepsLast(t, step);
          RunKeepsNoLeak(t, step);
          RunKeepsSession(t, step);
          RunKeepsBreak(t, step);
          RunKeepsKills(t, step);
        case BreakEvent =>
          BreakKeepsRun(t);
          BreakKeepsReads(t);
          BreakKeepsKills(t);
      }
      TaskerRunKeepsInv(TaskerApply(t, es[0]), es[1..], u);
    }
  }

  lemma TaskerReachableInv(t: Tasker)
    requires TaskerReachable(t)
    ensures TaskerInv(t)
  {
    var es :| TaskerLeads(NewTasker(), es, t);
    TaskerRunKeepsInv(NewTasker(), es, t);
  }

  // ---------- What holds of every run ----------

  /** Whatever the interleaving, everything Break hands to killSession belongs to one connection this
      tasker opened, and Break never follows a nil connection. */
  lemma BreakCoherence(t: Tasker, k: Target)
    requires TaskerReachable(t)
    ensures k in t.kills ==> OwnConnection(t, k)
    ensures !t.breakPc.NilDereference?
  {
    TaskerReachableInv(t);
  }

  /** From the moment Break has read it until Break returns, the target is the stored connection, which is
      still open exactly as long as the running task has not closed it and is about to clear its fields. */
  lemma TargetIsStored(t: Tasker)
    requires TaskerReachable(t) && t.breakPc.Killing?
    ensures t.conn.Some? && t.conn.value < |t.conns|
    ensures var connection := t.conns[t.conn.value];
      && connection.creds == t.breakPc.target.creds && connection.sid == t.breakPc.target.sid
      && (connection.connected <==> !t.pc.Clearing?)
  {
    TaskerReachableInv(t);
  }

  // ---------- Break by itself ----------

  /** How many steps `Break` has before it at most. */
  function StepsLeft(pc: BreakPc): nat {
    match pc
    case Outside => 0 case TestWorking => 9 case TestConn => 8 case TestConnected => 7 case TestSid => 6
    case ReadUser => 5 case ReadPass(_) => 4 case ReadDsn(_, _) => 3 case ReadSid(_, _, _) => 2
    case Killing(_) => 1 case NilDereference => 0
  }

  /** Every step of `Break` is enabled and brings it nearer to its end. */
  lemma BreakAdvances(t: Tasker)
    requires BreakPcOk(t) && !t.breakPc.Outside?
    ensures BreakEnabled(t) && StepsLeft(BreakApply(t).breakPc) < StepsLeft(t.breakPc)
  {
  }

  /** The rest of a `Break` during which the running task does nothing. */
  function Returned(t: Tasker): Tasker
    requires Coherent(t) && BreakPcOk(t)
    decreases StepsLeft(t.breakPc)
  {
    if t.breakPc.Outside? then t
    else
      BreakAdvances(t);
      BreakKeepsRun(t);
      BreakKeepsReads(t);
      Returned(BreakApply(t))
  }

  lemma ReturnedStep(t: Tasker)
    requires Coherent(t) && BreakPcOk(t) && !t.breakPc.Outside?
    ensures BreakEnabled(t) && Coherent(BreakApply(t)) && BreakPcOk(BreakApply(t))
    ensures Returned(t) == Returned(BreakApply(t))
  {
    BreakAdvances(t);
    BreakKeepsRun(t);
    BreakKeepsReads(t);
  }

  /** From the first credential on, everything stored is read and handed over. */
  lemma CredentialsHandedOver(t: Tasker)
    requires Coherent(t) && BreakPcOk(t) && t.breakPc.ReadUser?
    ensures Returned(t) == t.(breakPc := Outside, kills := t.kills + [Target(t.fields, t.sid)])
  {
    ReturnedStep(t);
    var t1 := BreakApply(t);
    ReturnedStep(t1);
    var t2 := BreakApply(t1);
    ReturnedStep(t2);
    var t3 := BreakApply(t2);
    ReturnedStep(t3);
    ReturnedStep(BreakApply(t3));
  }

  /** A `Break` that nothing interferes with hands over the stored credentials and session exactly when a task is
      working, a connection is stored, it is open and its session is known; otherwise nothing. */
  lemma BreakAlone(t: Tasker)
    requires TaskerReachable(t) && t.breakPc.Outside?
    ensures Coherent(BreakApply(t)) && BreakPcOk(BreakApply(t))
    ensures Returned(BreakApply(t)) ==
      if t.working && t.conn.Some? && t.conns[t.conn.value].connected && t.sid != ""
      then t.(kills := t.kills + [Target(t.fields, t.sid)])
      else t
  {
    TaskerReachableInv(t);
    BreakKeepsRun(t);
    BreakKeepsReads(t);
    var t1 := BreakApply(t);
    ReturnedStep(t1);
    if t.working {
      var t2 := BreakApply(t1);
      ReturnedStep(t2);
      if t.conn.Some? {
        var t3 := BreakApply(t2);
        ReturnedStep(t3);
        if t.conns[t.conn.value].connected {
          var t4 := BreakApply(t3);
          ReturnedStep(t4);
          if t.sid != "" { CredentialsHandedOver(BreakApply(t4)); }
        }
      }
    }
  }

  lemma {:induction false} TaskerLeadsOneMore(t: Tasker, es: seq<TaskerEvent>, u: Tasker, e: TaskerEvent)
    requires TaskerLeads(t, es, u) && TaskerEnabled(u, e)
    ensures TaskerLeads(t, es + [e], TaskerApply(u, e))
    decreases |es|
  {
    if es == [] {
      assert (es + [e])[1..] == [];
    } else {
      TaskerLeadsOneMore(TaskerApply(t, es[0]), es[1..], u, e);
      assert (es + [e])[1..] == es[1..] + [e];
    }
  }

  lemma TaskerDo(t: Tasker, e: TaskerEvent) returns (u: Tasker)
    requires TaskerReachable(t) && TaskerEnabled(t, e)
    ensures u == TaskerApply(t, e) && TaskerReachable(u)
  {
    var es :| TaskerLeads(NewTasker(), es, t);
    TaskerLeadsOneMore(NewTasker(), es, t, e);
    u := TaskerApply(t, e);
  }

  lemma Opens(creds: Creds, sid: string) returns (t: Tasker)
    requires creds != NO_CREDS && sid != ""
    ensures TaskerReachable(t)
    ensures t ==
      Tasker(Some(0), NO_CREDS, "", true, [Connection(creds, sid, true)], SettingUser(creds), None, Outside, [])
  {
    assert TaskerLeads(NewTasker(), [], NewTasker());
    t := TaskerDo(NewTasker(), RunEvent(Begin(creds)));
    t := TaskerDo(t, RunEvent(Compare));
    t := TaskerDo(t, RunEvent(Test));
    t := TaskerDo(t, RunEvent(Open(LogonOk(sid))));
  }

  lemma StoresCreds(creds: Creds, sid: string) returns (t: Tasker)
    requires creds != NO_CREDS && sid != ""
    ensures TaskerReachable(t)
    ensures t == Tasker(Some(0), creds, "", true, [Connection(creds, sid, true)], ClearingSid(creds), None, Outside, [])
  {
    t := Opens(creds, sid);
    t := TaskerDo(t, RunEvent(SetUser));
    t := TaskerDo(t, RunEvent(SetPass));
    t := TaskerDo(t, RunEvent(SetDsn));
  }

  /** A task that has logged on. */
  lemma LoggedOn(creds: Creds, sid: string) returns (t: Tasker)
    requires creds != NO_CREDS && sid != ""
    ensures TaskerReachable(t)
    ensures t == Tasker(Some(0), creds, sid, true, [Connection(creds, sid, true)], Working(creds), None, Outside, [])
  {
    t := StoresCreds(creds, sid);
    t := TaskerDo(t, RunEvent(ClearSid));
    t := TaskerDo(t, RunEvent(Query(true)));
    t := TaskerDo(t, RunEvent(SetSid));
  }

  /** Break has seen the connection open; then the request fails and the connection is closed. */
  lemma ClosedUnderBreak(creds: Creds, sid: string) returns (t: Tasker)
    requires creds != NO_CREDS && sid != ""
    ensures TaskerReachable(t)
    ensures t ==
      Tasker(Some(0), creds, sid, true, [Connection(creds, sid, false)], Clearing(ThenFail(creds)), None, TestSid, [])
  {
    t := BreakSawOpen(creds, sid);
    t := TaskerDo(t, RunEvent(RunStep.Work(false)));
    t := TaskerDo(t, RunEvent(Test));
    t := TaskerDo(t, RunEvent(CloseConn));
  }

  lemma BreakSawOpen(creds: Creds, sid: string) returns (t: Tasker)
    requires creds != NO_CREDS && sid != ""
    ensures TaskerReachable(t)
    ensures t == Tasker(Some(0), creds, sid, true, [Connection(creds, sid, true)], Working(creds), None, TestSid, [])
  {
    t := LoggedOn(creds, sid);
    t := TaskerDo(t, BreakEvent);
    t := TaskerDo(t, BreakEvent);
    t := TaskerDo(t, BreakEvent);
    t := TaskerDo(t, BreakEvent);
  }

  /** The close does not take the mutex: Break can hand over a session that was closed while it was reading. */
  lemma TargetAlreadyClosed(creds: Creds, sid: string) returns (t: Tasker)
    requires creds != NO_CREDS && sid != ""
    ensures TaskerReachable(t) && t.breakPc == Killing(Target(creds, sid)) && OpenConns(t.conns) == {}
  {
    t := ClosedUnderBreak(creds, sid);
    t := TaskerDo(t, BreakEvent);
    t := TaskerDo(t, BreakEvent);
    t := TaskerDo(t, BreakEvent);
    t := TaskerDo(t, BreakEvent);
    t := TaskerDo(t, BreakEvent);
  }

  function OpenConns(conns: seq<Connection>): set<nat> {
    set i: nat | i < |conns| && conns[i].connected
  }

  /** Connections opened and not closed: never more than one, and none while no connection is stored
      or after CloseAndFree. */
  lemma ConnectionConservation(t: Tasker)
    requires TaskerReachable(t)
    ensures |OpenConns(t.conns)| <= 1
    ensures t.conn.None? || t.pc.Freed? ==> OpenConns(t.conns) == {}
  {
    TaskerReachableInv(t);
    if t.conn.None? {
      assert OpenConns(t.conns) == {};
    } else {
      assert OpenConns(t.conns) <= {t.conn.value};
      assert t.pc.Freed? ==> OpenConns(t.conns) == {};
      if OpenConns(t.conns) != {} { assert OpenConns(t.conns) == {t.conn.value}; }
    }
  }

  /** Between runs: after a failed Run nothing is open and nothing is stored; after a successful one
      its own connection is open and its own credentials are stored. */
  lemma BetweenRuns(t: Tasker)
    requires TaskerReachable(t) && t.pc.Idle? && t.last.Some?
    ensures !t.last.value.0 ==> Clean(t) && OpenConns(t.conns) == {}
    ensures t.last.value.0 ==> Linked(t) && t.fields == t.last.value.1 && OpenConns(t.conns) == {t.conn.value}
  {
    TaskerReachableInv(t);
  }

  /** The panic in `connect` is unreachable, and it would not be if a Run could follow CloseAndFree:
      such a Run panics exactly when a connection is stored and its credentials are asked for again. */
  lemma PanicOnlyAfterFree(t: Tasker, creds: Creds)
    requires TaskerReachable(t)
    ensures !t.pc.Panicked?
    ensures t.pc.Freed? ==>
      (RunApply(t.(pc := Comparing(creds)), Compare).pc.Panicked? <==> t.conn.Some? && t.fields == creds)
  {
    TaskerReachableInv(t);
  }
}
