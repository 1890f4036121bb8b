/**
 The whole map of bind variables: the thirteen variables of run itself, those of the parameters, and the
 four that run writes behind them. Which of them carry the value of whoever wrote them, exactly.
 */
module StatementBinds {
  import opened StatementParts
  import Text

  /** A variable of the CGI environment. They are handed over in the order of their names. */
  datatype Variable = Variable(name: string, value: string)

  /** The variables that the statement writes. */
  const OUTPUTS := {"ContentType", "ContentLength", "CustomHeaders", "rc__", "content__", "lob__",
                    "bNextChunkExists", "sqlerrcode", "sqlerrm", "sqlerrtrace"}

  const INPUTS := {"num_params", "param_name", "param_val"}

  const LATE := {"package_name", "ext_param_name", "ext_param_val", "num_ext_params"}

  /** The map before the first parameter is prepared. */
  function OwnBinds(env: seq<Variable>): (binds: map<string, BindValue>)
    ensures binds.Keys == INPUTS + OUTPUTS
  {
    map["num_params" := Count(|env|),
        "param_name" := Table(seq(|env|, i requires 0 <= i < |env| => env[i].name)),
        "param_val" := Table(seq(|env|, i requires 0 <= i < |env| => env[i].value))]
    + map key | key in OUTPUTS :: Output(key)
  }

  /** What is written after the last one: the package of the procedure, and the parameters as a whole. */
  function LateBinds(ps: seq<Request>, package: string): (binds: map<string, BindValue>)
    ensures binds.Keys == LATE
  {
    map["package_name" := BindValue.Text(package), "ext_param_name" := Table(Names(ps)),
        "ext_param_val" := Table(Firsts(ps)), "num_ext_params" := Count(|ps|)]
  }

  /** The map with which the statement is executed: `own` before the parameters, `late` behind them. */
  function AllBinds(own: map<string, BindValue>, ps: seq<Request>, proc: string, late: map<string, BindValue>)
    : map<string, BindValue>
  {
    own + Binds(ps, proc) + late
  }

  // ---------- Who writes what ----------

  /** Somebody writes `value` under `key`: run, before or behind the parameters, or one of them. */
  ghost predicate Claims(
      own: map<string, BindValue>, ps: seq<Request>, proc: string, late: map<string, BindValue>, key: string,
      value: BindValue)
  {
    || (key in own && value == own[key])
    || (exists i :: 0 <= i < |ps| && Binding(ps[i], proc, key) && value == BoundTo(ps[i], proc, key))
    || (key in late && value == late[key])
  }

  predicate LastBinder(ps: seq<Request>, proc: string, i: nat, key: string)
    requires i < |ps|
  {
    Binding(ps[i], proc, key) && forall j | i < j < |ps| :: !Binding(ps[j], proc, key)
  }

  /** The last to write a key counts: run behind the parameters, the last parameter, run before them. */
  lemma LastBindingCounts(
      own: map<string, BindValue>, ps: seq<Request>, proc: string, late: map<string, BindValue>, key: string)
    ensures var binds := AllBinds(own, ps, proc, late);
      && (key in late ==> binds[key] == late[key])
      && (key !in late ==> forall i | 0 <= i < |ps| && LastBinder(ps, proc, i, key) ::
            key in binds && binds[key] == BoundTo(ps[i], proc, key))
      && (key !in late && key in own && (forall p <- ps :: !Binding(p, proc, key)) ==> binds[key] == own[key])
  {
    forall i | key !in late && 0 <= i < |ps| && LastBinder(ps, proc, i, key)
      ensures key in Binds(ps, proc) && Binds(ps, proc)[key] == BoundTo(ps[i], proc, key)
    {
      LastParameterCounts(ps, proc, i, key);
    }
    if key in Binds(ps, proc) { var i := LastToBind(ps, proc, key); }
  }

  /** Whatever the map holds, somebody has written there. */
  lemma BoundIsClaimed(
      own: map<string, BindValue>, ps: seq<Request>, proc: string, late: map<string, BindValue>, key: string)
    requires key in AllBinds(own, ps, proc, late)
    ensures Claims(own, ps, proc, late, key, AllBinds(own, ps, proc, late)[key])
  {
    if key !in late && key in Binds(ps, proc) {
      var i := LastToBind(ps, proc, key);
      LastParameterCounts(ps, proc, i, key);
    }
  }

  lemma {:induction false} BinderBinds(ps: seq<Request>, proc: string, i: nat, key: string)
    requires i < |ps| && Binding(ps[i], proc, key)
    ensures key in Binds(ps, proc)
  {
    if i < |ps| - 1 { BinderBinds(ps[..|ps| - 1], proc, i, key); }
  }

  lemma ClaimedIsBound(
      own: map<string, BindValue>, ps: seq<Request>, proc: string, late: map<string, BindValue>, key: string,
      value: BindValue)
    requires Claims(own, ps, proc, late, key, value)
    ensures key in AllBinds(own, ps, proc, late)
  {
    if i :| 0 <= i < |ps| && Binding(ps[i], proc, key) { BinderBinds(ps, proc, i, key); }
  }

  // ---------- Own values ----------

  /** Under every key is the value of everybody who writes it. */
  ghost predicate AllOwn(
      own: map<string, BindValue>, ps: seq<Request>, proc: string, late: map<string, BindValue>)
  {
    forall key, value | Claims(own, ps, proc, late, key, value) ::
      var binds := AllBinds(own, ps, proc, late); key in binds && binds[key] == value
  }

  /** Every placeholder carries the value that was meant for it exactly when no two that write one key write
      different values: neither two parameters, nor a parameter and run. */
  lemma OwnExactly(own: map<string, BindValue>, ps: seq<Request>, proc: string, late: map<string, BindValue>)
    ensures AllOwn(own, ps, proc, late) <==>
      forall key, v, w | Claims(own, ps, proc, late, key, v) && Claims(own, ps, proc, late, key, w) :: v == w
  {
    var binds := AllBinds(own, ps, proc, late);
    forall key, value | Claims(own, ps, proc, late, key, value) ensures key in binds {
      ClaimedIsBound(own, ps, proc, late, key, value);
    }
    forall key | key in binds ensures Claims(own, ps, proc, late, key, binds[key]) {
      BoundIsClaimed(own, ps, proc, late, key);
    }
  }

  predicate SameKey(k: string, m: string) { Text.ToUpper(k) == Text.ToUpper(m) }

  /** Whichever key of the map a placeholder is taken for, when case is ignored, it carries what was meant. */
  ghost predicate AllOwnInAnyCase(
      own: map<string, BindValue>, ps: seq<Request>, proc: string, late: map<string, BindValue>)
  {
    forall key, value | Claims(own, ps, proc, late, key, value) ::
      var binds := AllBinds(own, ps, proc, late);
      key in binds && forall k <- binds | SameKey(k, key) :: binds[k] == value
  }

  /** Oracle ignores the case of placeholders and the map does not: two names that differ in case only count
      as one, and the condition is about keys up to case. */
  lemma OwnInAnyCaseExactly(
      own: map<string, BindValue>, ps: seq<Request>, proc: string, late: map<string, BindValue>)
    ensures AllOwnInAnyCase(own, ps, proc, late) <==>
      forall k, m, v, w | Claims(own, ps, proc, late, k, v) && Claims(own, ps, proc, late, m, w) && SameKey(k, m) ::
        v == w
  {
    var binds := AllBinds(own, ps, proc, late);
    forall key, value | Claims(own, ps, proc, late, key, value) ensures key in binds {
      ClaimedIsBound(own, ps, proc, late, key, value);
    }
    forall key | key in binds ensures Claims(own, ps, proc, late, key, binds[key]) {
      BoundIsClaimed(own, ps, proc, late, key);
    }
  }

  // ---------- By the names alone ----------

  /** No two names are equal, none is another's with a `#` behind it, and none is one of run's own. */
  predicate Apart(ps: seq<Request>, proc: string, reserved: set<string>) {
    && (forall p <- ps :: p.name !in reserved)
    && forall i, j | 0 <= i < j < |ps| ::
         && ps[i].name != ps[j].name
         && (proc != "" ==> ps[i].name != ps[j].name + "#" && ps[j].name != ps[i].name + "#")
  }

  lemma SameCopy(m: string, n: string)
    ensures m + "#" == n + "#" <==> m == n
  {
    assert (m + "#")[..|m|] == m && (n + "#")[..|n|] == n;
  }

  lemma OneBinder(ps: seq<Request>, proc: string, reserved: set<string>, i: nat, j: nat, key: string)
    requires Apart(ps, proc, reserved) && i < |ps| && j < |ps|
    requires Binding(ps[i], proc, key) && Binding(ps[j], proc, key)
    ensures i == j
  {
    SameCopy(ps[i].name, ps[j].name);
  }

  predicate NoCopies(reserved: set<string>) {
    forall key <- reserved :: key != [] && key[|key| - 1] != '#'
  }

  lemma NotReserved(ps: seq<Request>, proc: string, reserved: set<string>, i: nat, key: string)
    requires Apart(ps, proc, reserved) && NoCopies(reserved) && i < |ps| && Binding(ps[i], proc, key)
    ensures key !in reserved
  {
    assert (ps[i].name + "#")[|ps[i].name|] == '#';
  }

  /** Then every placeholder carries its own value. */
  lemma ApartAreOwn(own: map<string, BindValue>, ps: seq<Request>, proc: string, late: map<string, BindValue>)
    requires own.Keys !! late.Keys && NoCopies(own.Keys + late.Keys) && Apart(ps, proc, own.Keys + late.Keys)
    ensures AllOwn(own, ps, proc, late)
  {
    var reserved := own.Keys + late.Keys;
    forall i, key | 0 <= i < |ps| && Binding(ps[i], proc, key) ensures key !in reserved {
      NotReserved(ps, proc, reserved, i, key);
    }
    forall key, v, w | Claims(own, ps, proc, late, key, v) && Claims(own, ps, proc, late, key, w)
      ensures v == w
    {
      if i, j :| 0 <= i < |ps| && 0 <= j < |ps| && Binding(ps[i], proc, key) && Binding(ps[j], proc, key)
                 && v == BoundTo(ps[i], proc, key) && w == BoundTo(ps[j], proc, key) {
        OneBinder(ps, proc, reserved, i, j, key);
      }
    }
    OwnExactly(own, ps, proc, late);
  }

  lemma OwnNames(key: string)
    requires key in INPUTS + OUTPUTS
    ensures key != [] && key[|key| - 1] != '#' && key[0] != 'e' && |key| != 12 && |key| != 14
  {
  }

  lemma LateNames(key: string)
    requires key in LATE
    ensures key != [] && key[|key| - 1] != '#' && (key[0] == 'e' || |key| == 12 || |key| == 14)
  {
  }

  lemma NoReservedCopies()
    ensures NoCopies(INPUTS + OUTPUTS + LATE) && INPUTS + OUTPUTS !! LATE
  {
    forall key | key in INPUTS + OUTPUTS ensures key != [] && key[|key| - 1] != '#' && key !in LATE {
      OwnNames(key);
      if key in LATE { LateNames(key); }
    }
    forall key | key in LATE ensures key != [] && key[|key| - 1] != '#' { LateNames(key); }
  }

  /** If no two names are equal, none is another's with a `#` behind it and none is one of run's seventeen,
      every placeholder carries the value that was meant for it. */
  lemma OwnValues(env: seq<Variable>, ps: seq<Request>, proc: string, package: string)
    requires Apart(ps, proc, INPUTS + OUTPUTS + LATE)
    ensures AllOwn(OwnBinds(env), ps, proc, LateBinds(ps, package))
  {
    NoReservedCopies();
    ApartAreOwn(OwnBinds(env), ps, proc, LateBinds(ps, package));
  }

  /** What no parameter writes is kept exactly when no parameter binds its key. */
  lemma KeptExactly(
      own: map<string, BindValue>, ps: seq<Request>, proc: string, late: map<string, BindValue>, key: string)
    requires key in own && key !in late && (own[key].Output? || own[key].Count?)
    ensures AllBinds(own, ps, proc, late)[key] == own[key] <==> forall p <- ps :: !Binding(p, proc, key)
  {
    if key in Binds(ps, proc) {
      var i := LastToBind(ps, proc, key);
      LastParameterCounts(ps, proc, i, key);
    } else {
      forall i | 0 <= i < |ps| ensures !Binding(ps[i], proc, key) {
        if Binding(ps[i], proc, key) { BinderBinds(ps, proc, i, key); }
      }
    }
  }

  lemma OwnKinds(env: seq<Variable>, key: string)
    requires key in OUTPUTS || key == "num_params"
    ensures key in OwnBinds(env) && (OwnBinds(env)[key].Output? || OwnBinds(env)[key].Count?)
  {
  }

  lemma OwnIsNotLate(key: string)
    requires key in OUTPUTS || key == "num_params"
    ensures key !in LATE
  {
    OwnNames(key);
    if key in LATE { LateNames(key); }
  }

  /** A variable that the statement writes, and the number of variables of the environment, is still run's own
      exactly when no parameter binds its name. */
  lemma OutputKept(env: seq<Variable>, ps: seq<Request>, proc: string, package: string, key: string)
    requires key in OUTPUTS || key == "num_params"
    ensures key in OwnBinds(env) && key in AllBinds(OwnBinds(env), ps, proc, LateBinds(ps, package))
    ensures AllBinds(OwnBinds(env), ps, proc, LateBinds(ps, package))[key] == OwnBinds(env)[key] <==>
      forall p <- ps :: !Binding(p, proc, key)
  {
    OwnKinds(env, key);
    OwnIsNotLate(key);
    KeptExactly(OwnBinds(env), ps, proc, LateBinds(ps, package), key);
  }

  // ---------- Requests that get other values ----------

  function StringParam(name: string, value: string): Request {
    Request(name, [value], 1, "varchar2", true, true, true)
  }

  lemma StringBinds(name: string, value: string, proc: string, key: string)
    requires CR !in value && key == name
    ensures Binding(StringParam(name, value), proc, key)
    ensures BoundTo(StringParam(name, value), proc, key) == BindValue.Text(value)
  {
    NothingRemoved(value);
  }

  lemma {:induction false} NothingRemoved(value: string)
    requires CR !in value
    ensures RemoveCR(value) == value
  {
    if value != [] {
      assert value == [value[0]] + value[1..];
      NothingRemoved(value[1..]);
    }
  }

  /** Whatever was prepared, the call gets the package of the procedure for an argument `package_name`. */
  lemma PackageReplaces(env: seq<Variable>, package: string, value: string)
    requires CR !in value
    ensures var p := StringParam("package_name", value);
      var late := LateBinds([p], package);
      && Binding(p, "", "package_name") && BoundTo(p, "", "package_name") == BindValue.Text(value)
      && "package_name" in late && AllBinds(OwnBinds(env), [p], "", late)["package_name"] == BindValue.Text(package)
  {
    StringBinds("package_name", value, "", "package_name");
  }

  /** The statement gets the value of an argument `num_params` for the number of variables of the environment. */
  lemma ArgumentReplaces(env: seq<Variable>, package: string, value: string)
    requires CR !in value
    ensures var p := StringParam("num_params", value);
      var late := LateBinds([p], package);
      && "num_params" in OwnBinds(env) && OwnBinds(env)["num_params"] == Count(|env|)
      && "num_params" in AllBinds(OwnBinds(env), [p], "", late)
      && AllBinds(OwnBinds(env), [p], "", late)["num_params"] == BindValue.Text(value)
  {
    var p := StringParam("num_params", value);
    OwnKinds(env, "num_params");
    OwnIsNotLate("num_params");
    StringBinds("num_params", value, "", "num_params");
    LastBindingCounts(OwnBinds(env), [p], "", LateBinds([p], package), "num_params");
    assert LastBinder([p], "", 0, "num_params");
  }

  /** The saved copy of `x` and the argument `x#` share a key: the one prepared last counts. */
  lemma CopiesCollide(proc: string, v: string, w: string)
    requires proc != "" && CR !in v && CR !in w
    ensures var (x, y) := (StringParam("x", v), StringParam("x#", w));
      && "x#" in Binds([x, y], proc) && Binds([x, y], proc)["x#"] == BindValue.Text(w)
      && "x#" in Binds([y, x], proc) && Binds([y, x], proc)["x#"] == BindValue.Text(v)
  {
    var x, y := StringParam("x", v), StringParam("x#", w);
    assert "x" + "#" == "x#";
    NothingRemoved(v);
    NothingRemoved(w);
    LastParameterCounts([x, y], proc, 1, "x#");
    LastParameterCounts([y, x], proc, 1, "x#");
  }

  /** `a` and `A` are two keys of the map, with a value each, and one placeholder to Oracle. */
  lemma CasesCollide(own: map<string, BindValue>, late: map<string, BindValue>, v: string, w: string)
    requires CR !in v && CR !in w && v != w
    ensures !AllOwnInAnyCase(own, [StringParam("a", v), StringParam("A", w)], "", late)
  {
    var ps := [StringParam("a", v), StringParam("A", w)];
    StringBinds("a", v, "", "a");
    StringBinds("A", w, "", "A");
    assert Binding(ps[0], "", "a") && Binding(ps[1], "", "A");
    assert Claims(own, ps, "", late, "a", BindValue.Text(v));
    assert Claims(own, ps, "", late, "A", BindValue.Text(w));
    assert Text.ToUpper("a") == Text.ToUpper("A") == "A";
    OwnInAnyCaseExactly(own, ps, "", late);
  }
}
