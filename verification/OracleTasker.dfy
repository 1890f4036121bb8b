/**
 The code of the tasker that touches its connection, statement by statement, with the outcomes of
 the foreign calls (logon, session query, request) as parameters. Each method is proved to be a run
 of the transition system of TaskerConnection without Break: every assignment is one of its steps.
 */
module OracleTaskerCode {
  import opened Options
  import opened TaskerConnection

  /** `u` comes out of `t` by steps of the running task alone. */
  ghost predicate Follows(t: Tasker, u: Tasker) {
    exists steps: seq<RunStep> :: StepsLead(t, steps, u)
  }

  ghost predicate StepsLead(t: Tasker, steps: seq<RunStep>, u: Tasker)
    decreases |steps|
  {
    if steps == [] then t == u
    else RunEnabled(t, steps[0]) && StepsLead(RunApply(t, steps[0]), steps[1..], u)
  }

  lemma {:induction false} StepsLeadOn(t: Tasker, a: seq<RunStep>, u: Tasker, b: seq<RunStep>, v: Tasker)
    requires StepsLead(t, a, u) && StepsLead(u, b, v)
    ensures StepsLead(t, a + b, v)
    decreases |a|
  {
    if a == [] {
      assert a + b == b;
    } else {
      assert (a + b)[1..] == a[1..] + b;
      StepsLeadOn(RunApply(t, a[0]), a[1..], u, b, v);
    }
  }

  lemma FollowsSelf(t: Tasker)
    ensures Follows(t, t)
  {
    assert StepsLead(t, [], t);
  }

  lemma FollowsStep(t: Tasker, u: Tasker, step: RunStep)
    requires Follows(t, u) && RunEnabled(u, step)
    ensures Follows(t, RunApply(u, step))
  {
    var a :| StepsLead(t, a, u);
    assert StepsLead(RunApply(u, step), [], RunApply(u, step));
    assert StepsLead(u, [step], RunApply(u, step));
    StepsLeadOn(t, a, u, [step], RunApply(u, step));
  }

  lemma FollowsOn(t: Tasker, u: Tasker, v: Tasker)
    requires Follows(t, u) && Follows(u, v)
    ensures Follows(t, v)
  {
    var a :| StepsLead(t, a, u);
    var b :| StepsLead(u, b, v);
    StepsLeadOn(t, a, u, b, v);
  }

  /** The steps of the running task are events of the transition system, so they keep its invariant. */
  lemma {:induction false} StepsKeepInv(t: Tasker, steps: seq<RunStep>, u: Tasker)
    requires StepsLead(t, steps, u) && TaskerInv(t)
    ensures TaskerInv(u)
    decreases |steps|
  {
    if steps != [] {
      var v := RunApply(t, steps[0]);
      assert TaskerLeads(v, [], v) && TaskerLeads(t, [RunEvent(steps[0])], v);
      TaskerRunKeepsInv(t, [RunEvent(steps[0])], v);
      StepsKeepInv(v, steps[1..], u);
    }
  }

  lemma FollowsKeepsInv(t: Tasker, u: Tasker)
    requires Follows(t, u) && TaskerInv(t)
    ensures TaskerInv(u)
  {
    var steps :| StepsLead(t, steps, u);
    StepsKeepInv(t, steps, u);
  }

  class OracleTasker {
    var conn: Option<nat>
    var connUserName: string
    var connUserPass: string
    var connStr: string
    var sessID: string
    var stateIsWorking: bool
    var conns: seq<Connection>      // every connection object the driver has made for this tasker
    ghost var pc: RunPc
    ghost var last: Option<(bool, Creds)>

    ghost function Now(): Tasker
      reads this
    {
      Tasker(conn, Creds(connUserName, connUserPass, connStr), sessID, stateIsWorking, conns, pc, last, Outside, [])
    }

    constructor ()
      ensures Now() == NewTasker()
    {
      conn, connUserName, connUserPass, connStr, sessID := None, "", "", "", "";
      stateIsWorking, conns := false, [];
      pc, last := Idle, None;
    }

    /** Closes or frees the connection object. */
    method EndConnection(ghost after: After)
      requires pc == Testing(after) && conn.Some? && conn.value < |conns|
      modifies this`conns, this`pc
      ensures Follows(old(Now()), Now()) && pc == Clearing(after)
    {
      FollowsSelf(Now());
      FollowsStep(Now(), Now(), Test);
      if conns[conn.value].connected {
        pc := ClosingConn(after);
        FollowsStep(old(Now()), Now(), CloseConn);
        conns := conns[conn.value := conns[conn.value].(connected := false)];
      } else {
        pc := FreeingConn(after);
        FollowsStep(old(Now()), Now(), FreeConn);
      }
      pc := Clearing(after);
    }

    method Disconnect(ghost after: After)
      requires pc == Testing(after) && (conn.Some? ==> conn.value < |conns|)
      modifies this
      ensures Follows(old(Now()), Now()) && pc == AfterDisconnect(after)
    {
      if conn.Some? {
        EndConnection(after);
        FollowsStep(old(Now()), Now(), ClearFields);
        conn, connUserName, connUserPass, connStr, sessID := None, "", "", "", "";
      } else {
        FollowsSelf(Now());
        FollowsStep(Now(), Now(), Test);
      }
      pc := AfterDisconnect(after);
    }

    method EvalSessionID(queryOk: bool) returns (ok: bool)
      requires pc.ClearingSid? && conn.Some? && conn.value < |conns|
      modifies this
      ensures Follows(old(Now()), Now()) && ok == queryOk && conn == old(conn) && conns == old(conns)
      ensures pc == if ok then Working(old(pc).creds) else Testing(ThenFail(old(pc).creds))
    {
      ghost var creds := pc.creds;
      FollowsSelf(Now());
      FollowsStep(Now(), Now(), ClearSid);
      sessID := "";
      pc := Querying(creds);
      FollowsStep(old(Now()), Now(), Query(queryOk));
      if !queryOk {
        pc := Testing(ThenFail(creds));
        return false;
      }
      pc := SettingSid(creds, conns[conn.value].sid);
      FollowsStep(old(Now()), Now(), SetSid);
      sessID := conns[conn.value].sid;
      pc := Working(creds);
      return true;
    }

    /** oracle.NewConnection: opens a connection, or fails leaving none or a dead one behind. */
    method NewConnection(username: string, userpass: string, connstr: string, logon: Logon) returns (ok: bool)
      requires pc == Opening(Creds(username, userpass, connstr))
      modifies this
      ensures Follows(old(Now()), Now()) && ok == logon.LogonOk?
      ensures conn.Some? ==> conn.value < |conns|
      ensures var creds := Creds(username, userpass, connstr);
        if ok then pc == SettingUser(creds) && conn.Some? else pc == Testing(ThenFail(creds))
    {
      ghost var creds := Creds(username, userpass, connstr);
      FollowsSelf(Now());
      FollowsStep(Now(), Now(), Open(logon));
      match logon
      case LogonOk(sid) =>
        conns, conn := conns + [Connection(Creds(username, userpass, connstr), sid, true)], Some(|conns|);
        pc := SettingUser(creds);
        return true;
      case LogonNil =>
        conn := None;
        pc := Testing(ThenFail(creds));
        return false;
      case LogonDead =>
        conns, conn := conns + [Connection(Creds(username, userpass, connstr), "", false)], Some(|conns|);
        pc := Testing(ThenFail(creds));
        return false;
    }

    /** The three assignments of connect after a successful logon. */
    method KeepCredentials(username: string, userpass: string, connstr: string)
      requires pc == SettingUser(Creds(username, userpass, connstr)) && conn.Some? && conn.value < |conns|
      modifies this
      ensures Follows(old(Now()), Now()) && conn.Some? && conn.value < |conns|
      ensures pc == ClearingSid(Creds(username, userpass, connstr))
    {
      ghost var creds := Creds(username, userpass, connstr);
      FollowsSelf(Now());
      FollowsStep(old(Now()), Now(), SetUser);
      connUserName := username;
      pc := SettingPass(creds);
      FollowsStep(old(Now()), Now(), SetPass);
      connUserPass := userpass;
      pc := SettingDsn(creds);
      FollowsStep(old(Now()), Now(), SetDsn);
      connStr := connstr;
      pc := ClearingSid(creds);
    }

    /** The part of `connect` that runs once the old connection is gone. */
    method OpenConnection(username: string, userpass: string, connstr: string, logon: Logon, queryOk: bool)
      returns (ok: bool)
      requires pc == Opening(Creds(username, userpass, connstr))
      modifies this
      ensures Follows(old(Now()), Now()) && (conn.Some? ==> conn.value < |conns|)
      ensures var creds := Creds(username, userpass, connstr);
        pc == if ok then Working(creds) else Testing(ThenFail(creds))
      ensures ok <==> logon.LogonOk? && queryOk
    {
      ghost var creds := Creds(username, userpass, connstr);
      ok := NewConnection(username, userpass, connstr, logon);
      if !ok {
        return;
      }
      ghost var before := Now();
      KeepCredentials(username, userpass, connstr);
      FollowsOn(old(Now()), before, Now());
      before := Now();
      ok := EvalSessionID(queryOk);
      FollowsOn(old(Now()), before, Now());
    }

    method Connect(username: string, userpass: string, connstr: string, logon: Logon, queryOk: bool) returns (ok: bool)
      requires pc == Comparing(Creds(username, userpass, connstr)) && TaskerInv(Now())
      modifies this
      ensures Follows(old(Now()), Now()) && (conn.Some? ==> conn.value < |conns|)
      ensures var creds := Creds(username, userpass, connstr);
        pc == if ok then Working(creds) else Testing(ThenFail(creds))
      ensures ok <==>
        old(conn.Some? && Now().fields == Creds(username, userpass, connstr)) || (logon.LogonOk? && queryOk)
    {
      ghost var creds := Creds(username, userpass, connstr);
      FollowsSelf(Now());
      FollowsStep(Now(), Now(), Compare);
      if conn.None? || connUserName != username || connUserPass != userpass || connStr != connstr {
        pc := Testing(ThenOpen(creds));
        ghost var before := Now();
        Disconnect(ThenOpen(creds));
        FollowsOn(old(Now()), before, Now());
        before := Now();
        ok := OpenConnection(username, userpass, connstr, logon, queryOk);
        FollowsOn(old(Now()), before, Now());
        return;
      }
      if !conns[conn.value].connected {
        assert false; // the panic in connect
      }
      pc := Working(creds);
      return true;
    }

    /** The part of `Run` that can fail: connecting, then the request itself. */
    method Attempt(userName: string, userPass: string, connstr: string, logon: Logon, queryOk: bool, requestOk: bool)
      returns (ok: bool)
      requires pc == Comparing(Creds(userName, userPass, connstr)) && TaskerInv(Now())
      modifies this
      ensures Follows(old(Now()), Now()) && (conn.Some? ==> conn.value < |conns|)
      ensures var creds := Creds(userName, userPass, connstr);
        pc == if ok then Returning(true, creds) else Testing(ThenFail(creds))
      ensures ok == (requestOk
        && (old(conn.Some? && Now().fields == Creds(userName, userPass, connstr)) || (logon.LogonOk? && queryOk)))
    {
      ghost var creds := Creds(userName, userPass, connstr);
      ok := Connect(userName, userPass, connstr, logon, queryOk);
      if ok {
        FollowsStep(old(Now()), Now(), Work(requestOk));
        ok := requestOk;
        pc := if ok then Returning(true, creds) else Testing(ThenFail(creds));
      }
    }

    method Enter(ghost creds: Creds)
      requires pc == Idle && TaskerInv(Now())
      modifies this`stateIsWorking, this`pc
      ensures Follows(old(Now()), Now()) && pc == Comparing(creds) && TaskerInv(Now())
    {
      FollowsSelf(Now());
      FollowsStep(Now(), Now(), Begin(creds));
      stateIsWorking := true;
      pc := Comparing(creds);
      FollowsKeepsInv(old(Now()), Now());
    }

    method Leave(ghost ok: bool, ghost creds: Creds)
      requires pc == Returning(ok, creds)
      modifies this`stateIsWorking, this`pc, this`last
      ensures Follows(old(Now()), Now()) && pc == Idle && last == Some((ok, creds))
    {
      FollowsSelf(Now());
      FollowsStep(Now(), Now(), Return);
      stateIsWorking := false;
      pc, last := Idle, Some((ok, creds));
    }

    /** One request behind the check of its environment. */
    method Proceed(userName: string, userPass: string, connstr: string, logon: Logon, queryOk: bool, requestOk: bool)
      returns (ok: bool)
      requires pc == Comparing(Creds(userName, userPass, connstr)) && TaskerInv(Now())
      modifies this
      ensures Follows(old(Now()), Now()) && pc == Idle && TaskerInv(Now())
      ensures last == Some((ok, Creds(userName, userPass, connstr)))
      ensures ok == (requestOk
        && (old(conn.Some? && Now().fields == Creds(userName, userPass, connstr)) || (logon.LogonOk? && queryOk)))
      ensures ok ==> Linked(Now()) && Now().fields == Creds(userName, userPass, connstr)
      ensures !ok ==> Clean(Now())
    {
      ghost var creds, t0 := Creds(userName, userPass, connstr), Now();
      ok := Attempt(userName, userPass, connstr, logon, queryOk, requestOk);
      ghost var t1 := Now();
      if !ok {
        Disconnect(ThenFail(creds));
        FollowsOn(t0, t1, Now());
      }
      ghost var t2 := Now();
      Leave(ok, creds);
      FollowsOn(t0, t2, Now());
      FollowsKeepsInv(t0, Now());
    }

    /** One request. Without an environment the process exits. Otherwise it succeeds exactly when a connection
        of its own is there or can be made and the request itself succeeds; if it fails, the connection is gone. */
    method Run(userName: string, userPass: string, connstr: string, envSize: nat, logon: Logon, queryOk: bool,
               requestOk: bool)
      returns (ok: bool, exited: bool)
      requires pc == Idle && TaskerInv(Now())
      modifies this
      ensures Follows(old(Now()), Now()) && TaskerInv(Now()) && (exited <==> envSize == 0)
      ensures exited ==> pc == Comparing(Creds(userName, userPass, connstr)) && conns == old(conns) && conn == old(conn)
      ensures !exited ==> pc == Idle && last == Some((ok, Creds(userName, userPass, connstr)))
      ensures exited || (ok <==>
        requestOk
        && (old(conn.Some? && Now().fields == Creds(userName, userPass, connstr)) || (logon.LogonOk? && queryOk)))
      ensures !exited && ok ==> Linked(Now()) && Now().fields == Creds(userName, userPass, connstr)
      ensures !exited && !ok ==> Clean(Now())
    {
      ghost var t0 := Now();
      Enter(Creds(userName, userPass, connstr));
      exited, ok := envSize == 0, false;
      if !exited {
        ghost var t1 := Now();
        ok := Proceed(userName, userPass, connstr, logon, queryOk, requestOk);
        FollowsOn(t0, t1, Now());
      }
    }

    method Free()
      requires pc == Idle && TaskerInv(Now())
      modifies this
      ensures Follows(old(Now()), Now()) && pc == Freed
      ensures OpenConns(conns) == {}
    {
      FollowsSelf(Now());
      FollowsStep(Now(), Now(), CloseAndFree);
      if conn.Some? {
        conns := conns[conn.value := conns[conn.value].(connected := false)];
      }
      pc := Freed;
      FollowsKeepsInv(old(Now()), Now());
    }
  }
}
