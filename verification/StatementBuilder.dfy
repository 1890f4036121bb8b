/**
 The builder of the statement: prepareParam, prepareStringParam and the parameter loops of run write
 the buffers and the map of bind variables one parameter at a time (oratasker.go).
 */
module StatementBuilder {
  import opened Options
  import opened StatementText
  import opened StatementParts
  import opened StatementReading
  import opened StatementArguments
  import opened ExtendedParameters
  import opened StatementBinds
  import opened StatementWhole
  import Text

  /** How preparing ends. `NotSaved`: a file could not be saved. `NoVariable`: Oracle did not create a
      variable. `Panicked`: there is no first value to take. `NotDescribed`: the description is gone. */
  datatype Outcome = Done | NotSaved | NoVariable | BadSubtype | Panicked | NotDescribed

  /** How preparing `p` ends. */
  function OutcomeOf(p: Request, proc: string): Outcome {
    if p.Kind().BooleanTab? then BadSubtype
    else if !IsTable(p.Kind()) && p.values == [] then Panicked
    else if !p.Kind().Foreign? && !p.bound then NoVariable
    else if proc != "" && !p.Kind().Boolean? && !p.stored then NoVariable
    else Done
  }

  /** How a turn of either loop ends; after preparing it takes the first value. */
  function OutcomeOfTurn(p: Request, proc: string): Outcome {
    if !p.saved then NotSaved
    else if OutcomeOf(p, proc) != Done then OutcomeOf(p, proc)
    else if p.values == [] then Panicked
    else Done
  }

  /** How preparing all of `ps` ends. */
  function OutcomeOfAll(ps: seq<Request>, proc: string): Outcome {
    if ps == [] then Done
    else if OutcomeOfTurn(ps[0], proc) != Done then OutcomeOfTurn(ps[0], proc)
    else OutcomeOfAll(ps[1..], proc)
  }

  lemma {:induction false} DoneHasValues(ps: seq<Request>, proc: string)
    requires OutcomeOfAll(ps, proc) == Done
    ensures forall p <- ps :: p.values != []
  {
    if ps != [] {
      DoneHasValues(ps[1..], proc);
      assert ps == [ps[0]] + ps[1..];
    }
  }

  /** A parameter as the request has it. */
  datatype Entry = Entry(name: string, values: seq<string>, saved: bool, bound: bool, stored: bool)

  /** ArgumentInfo, for the lookup with the given number: another request may change the cache in between. */
  type Lookup = (nat, string) -> (int, string)

  function TrimLeft(s: string): string {
    if s != [] && s[0] == ' ' then TrimLeft(s[1..]) else s
  }

  function TrimRight(s: string): string {
    if s != [] && s[|s| - 1] == ' ' then TrimRight(s[..|s| - 1]) else s
  }

  /** strings.Trim(s, " "). */
  function Trim(s: string): string { TrimRight(TrimLeft(s)) }

  /** With the argument of the procedure that has its name, if there is one. */
  function Resolve(e: Entry, name: string, argument: Lookup, at: nat): Request {
    var (code, typeName) := argument(at, name);
    Request(name, e.values, code, typeName, e.saved, e.bound, e.stored)
  }

  /** The files of the request, looked up after `at` others: their values are the names they were saved under. */
  function FileRequests(files: seq<Entry>, argument: Lookup, at: nat): seq<Request> {
    if files == [] then []
    else [Resolve(files[0], files[0].name, argument, at)] + FileRequests(files[1..], argument, at + 1)
  }

  /** A parameter of the query: its name is trimmed, and it is passed over when no name is left. */
  function UrlRequest(e: Entry, argument: Lookup, at: nat): seq<Request> {
    if Trim(e.name) == "" then [] else [Resolve(e.(saved := true), Trim(e.name), argument, at)]
  }

  /** The parameters of the query, looked up after `at` others. */
  function UrlRequests(urls: seq<Entry>, argument: Lookup, at: nat): seq<Request> {
    if urls == [] then [] else UrlRequest(urls[0], argument, at) + UrlRequests(urls[1..], argument, at + 1)
  }

  /** All parameters in the order in which they are prepared. */
  function AllRequests(files: seq<Entry>, urls: seq<Entry>, argument: Lookup): seq<Request> {
    FileRequests(files, argument, 0) + UrlRequests(urls, argument, |files|)
  }

  /** The text in the buffers, and the bind variables. */
  datatype Texts = Texts(showDeclare: string, showSet: string, execArgs: string, showArgs: string,
                         execStore: string, showStore: string, binds: map<string, BindValue>)

  function TextsOf(ps: seq<Request>, proc: string): Texts {
    Texts(Render(Declares(ps)), Render(AssignsOf(ps)), Render(Joined(ExecArgs(ps))), Render(Joined(ShowArgs(ps))),
          Render(ExecStores(ps, proc)), Render(ShowStores(ps, proc)), Binds(ps, proc))
  }

  /** The same behind what is there before the first parameter: the shown environment and run's own variables. */
  function Behind(first: Texts, t: Texts): Texts {
    t.(showSet := first.showSet + t.showSet, binds := first.binds + t.binds)
  }

  /** The environment as it is shown: names and values are quoted without doubling. */
  function EnvLines(env: seq<Variable>, n: nat): seq<Segment>
    requires n <= |env|
  {
    if n == 0 then [Plain("  l_num_params := " + Text.Decimal(|env|) + ";\n")]
    else
      EnvLines(env, n - 1) +
      (ExtLine("  l_param_name", n - 1, env[n - 1].name) + ExtLine("  l_param_val", n - 1, env[n - 1].value))
  }

  /** A buffer of arguments with one more. */
  function Extended(buffer: string, text: string): string {
    (if buffer == "" then "" else buffer + ", ") + text
  }

  /** The buffers with one parameter more. */
  function Grown(t: Texts, p: Request, proc: string): Texts {
    Texts(t.showDeclare + Render(DeclareLine(p.name, TypeText(p))),
          t.showSet + Render(Assigns(p)),
          if p.Kind().Foreign? then t.execArgs else Extended(t.execArgs, ExecText(p)),
          if p.Kind().Foreign? then t.showArgs else Extended(t.showArgs, ShowText(p)),
          t.execStore + Render(Stores(p, proc, CopyOf(p))),
          t.showStore + Render(Stores(p, proc, Var(p.name))),
          BindStored(BindArgument(t.binds, p), p, proc))
  }

  class Builder {
    /** Calls this procedure to save a parameter in the context, unless it is "". */
    const proc: string
    /** The buffers and the map before the first parameter. */
    ghost const first: Texts
    var showDeclare: string
    var execSet: string
    var showSet: string
    var execArgs: string
    var showArgs: string
    var execStore: string
    var showStore: string
    var params: map<string, BindValue>
    var extNames: seq<string>
    var extValues: seq<string>
    /** The parameters prepared so far. */
    ghost var prepared: seq<Request>

    /** `execSet`, `showSet` and `params` are what run has before its first parameter. */
    constructor (proc: string, execSet: string, showSet: string, params: map<string, BindValue>)
      ensures Synced() && prepared == [] && first == Texts("", showSet, "", "", "", "", params)
      ensures this.proc == proc && this.execSet == execSet
    {
      this.proc, this.execSet, this.showSet, this.params := proc, execSet, showSet, params;
      showDeclare, execArgs, showArgs, execStore, showStore := "", "", "", "", "";
      extNames, extValues, prepared := [], [], [];
      first := Texts("", showSet, "", "", "", "", params);
      new;
      NothingYet(first, proc);
    }

    /** What is in the buffers and in the map. */
    ghost function Now(): Texts
      reads this
    {
      Texts(showDeclare, showSet, execArgs, showArgs, execStore, showStore, params)
    }

    /** It is what the parameters prepared so far come to. (Stated with a quantifier so that the loops, which
        only pass this on, do not unfold `TextsOf`.) */
    ghost predicate Valid()
      reads this
    {
      forall ps | ps == prepared :: Now() == Behind(first, TextsOf(ps, proc))
    }

    /** Writes the argument in both calls, behind a comma if there is an argument before it. */
    method PassArgument(p: Request)
      modifies `execArgs, `showArgs
      ensures execArgs == Extended(old(execArgs), ExecText(p))
      ensures showArgs == Extended(old(showArgs), ShowText(p))
    {
      if |execArgs| != 0 { execArgs := execArgs + ", "; }
      execArgs := execArgs + (p.name + " => :" + p.name + (if p.Kind().Boolean? then " = 'true'" else ""));
      if |showArgs| != 0 { showArgs := showArgs + ", "; }
      showArgs := showArgs + (p.name + " => l_" + p.name);
    }

    /** prepareStringParam, and the cases of prepareParam for one value. */
    method PrepareScalar(p: Request) returns (outcome: Outcome)
      requires !IsTable(p.Kind())
      modifies `showDeclare, `showSet, `execArgs, `showArgs, `execStore, `showStore, `params
      ensures outcome == OutcomeOf(p, proc)
      ensures outcome == Done ==> Now() == Grown(old(Now()), p, proc)
    {
      if p.values == [] { return Panicked; }
      var k, value := p.Kind(), ScalarValue(p);
      if !k.Foreign? {
        if !p.bound { return NoVariable; }
        params := params[p.name := if k.Number? && value == "" then Null else BindValue.Text(value)];
      }
      showDeclare := showDeclare + Render(DeclareLine(p.name, TypeText(p)));
      showSet := showSet + Render(AssignLine(p.name, "", Shown(k, value)));
      if !k.Foreign? { PassArgument(p); }
      if proc != "" {
        if k.Boolean? {
          execStore := execStore + Render(StoreLine(proc, p.name, [Quoted(value)]));
          showStore := showStore + Render(StoreLine(proc, p.name, [Quoted(value)]));
        } else {
          if !p.stored { return NoVariable; }
          params := params[p.name + "#" := BindValue.Text(value)];
          execStore := execStore + Render(StoreLine(proc, p.name, [Bind(p.name + "#")]));
          showStore := showStore + Render(StoreLine(proc, p.name, [Var(p.name)]));
        }
      }
      outcome := Done;
    }

    /** The cases of prepareParam for tables. */
    method PrepareTable(p: Request) returns (outcome: Outcome)
      requires IsTable(p.Kind()) && !p.Kind().BooleanTab?
      modifies `showDeclare, `showSet, `execArgs, `showArgs, `execStore, `showStore, `params
      ensures outcome == OutcomeOf(p, proc)
      ensures outcome == Done ==> Now() == Grown(old(Now()), p, proc)
    {
      var value := TableValue(p);
      if !p.bound { return NoVariable; }
      params := params[p.name := if p.Kind().DateTab? then Times(Trimmed(p.values)) else Table(value)];
      showDeclare := showDeclare + Render(DeclareLine(p.name, TypeText(p)));
      AssignElements(p);
      PassArgument(p);
      outcome := StoreTable(p, value);
    }

    method StoreTable(p: Request, value: seq<string>) returns (outcome: Outcome)
      requires IsTable(p.Kind()) && value == Elements(p.Kind(), p.values)
      modifies `execStore, `showStore, `params
      ensures outcome == if proc != "" && !p.stored then NoVariable else Done
      ensures outcome == Done ==>
        && params == BindStored(old(params), p, proc)
        && execStore == old(execStore) + Render(Stores(p, proc, CopyOf(p)))
        && showStore == old(showStore) + Render(Stores(p, proc, Var(p.name)))
    {
      if proc != "" {
        if !p.stored { return NoVariable; }
        params := params[p.name + "#" := Table(value)];
        StoreElements(p);
      }
      outcome := Done;
    }

    static method TableValue(p: Request) returns (value: seq<string>)
      ensures value == Elements(p.Kind(), p.values)
    {
      value := [];
      for i := 0 to |p.values|
        invariant value == Elements(p.Kind(), p.values[..i])
      {
        value := value + [Element(p.Kind(), p.values[i])];
        assert p.values[..i + 1][..i] == p.values[..i];
      }
      assert p.values[..|p.values|] == p.values;
    }

    method AssignElements(p: Request)
      modifies `showSet
      ensures showSet == old(showSet) + Render(TableAssigns(p, |p.values|))
    {
      ghost var before := showSet;
      for i := 0 to |p.values|
        invariant showSet == before + Render(TableAssigns(p, i))
      {
        var line := AssignLine(p.name, Index(i), Shown(p.Kind(), TrimRightCRLF(p.values[i])));
        showSet := showSet + Render(line);
        RenderMore(before, TableAssigns(p, i), line);
      }
    }

    method StoreElements(p: Request)
      modifies `execStore, `showStore
      ensures execStore == old(execStore) + Render(TableStores(p, proc, CopyOf(p), |p.values|))
      ensures showStore == old(showStore) + Render(TableStores(p, proc, Var(p.name), |p.values|))
    {
      var copy, local := Bind(p.name + "#"), Var(p.name);
      ghost var exec, show := execStore, showStore;
      for i := 0 to |p.values|
        invariant execStore == exec + Render(TableStores(p, proc, copy, i))
        invariant showStore == show + Render(TableStores(p, proc, local, i))
      {
        var execLine := StoreLine(proc, p.name, [copy, Plain(Index(i))]);
        var showLine := StoreLine(proc, p.name, [local, Plain(Index(i))]);
        execStore := execStore + Render(execLine);
        showStore := showStore + Render(showLine);
        RenderMore(exec, TableStores(p, proc, copy, i), execLine);
        RenderMore(show, TableStores(p, proc, local, i), showLine);
      }
    }

    /** prepareParam: when it succeeds, the buffers and the map are those of one parameter more. */
    method PrepareParam(p: Request) returns (outcome: Outcome)
      requires Valid()
      modifies `showDeclare, `showSet, `execArgs, `showArgs, `execStore, `showStore, `params, `prepared
      ensures outcome == OutcomeOf(p, proc)
      ensures outcome == Done ==> Valid() && prepared == old(prepared) + [p]
    {
      if p.Kind().BooleanTab? {
        outcome := BadSubtype;
      } else if IsTable(p.Kind()) {
        outcome := PrepareTable(p);
      } else {
        outcome := PrepareScalar(p);
      }
      if outcome == Done {
        BehindStep(first, prepared, p, proc);
        prepared := prepared + [p];
      }
    }

    /** The extended parameters, too, are those of the parameters prepared so far. */
    ghost predicate Synced()
      reads this
    {
      Valid() && forall ps | ps == prepared :: extNames == Names(ps) && extValues == Firsts(ps)
    }

    /** A turn of either loop over the parameters of the request. */
    method PrepareNext(p: Request) returns (outcome: Outcome)
      requires Synced()
      modifies this
      ensures outcome == OutcomeOfTurn(p, proc) && execSet == old(execSet)
      ensures outcome == Done ==> Synced() && prepared == old(prepared) + [p]
    {
      if !p.saved { return NotSaved; }
      outcome := PrepareParam(p);
      if outcome == Done {
        if p.values == [] { return Panicked; }
        extNames := extNames + [p.name];
        extValues := extValues + [p.values[0]];
        OneNameMore(old(prepared), p);
      }
    }

    /** The loop over the files of the request, in any order. */
    method PrepareFiles(files: seq<Entry>, argument: Lookup) returns (outcome: Outcome)
      requires Synced() && prepared == []
      modifies this
      ensures outcome == OutcomeOfAll(FileRequests(files, argument, 0), proc) && execSet == old(execSet)
      ensures outcome == Done ==> Synced() && prepared == FileRequests(files, argument, 0)
    {
      ghost var all := FileRequests(files, argument, 0);
      for i := 0 to |files|
        invariant Synced() && execSet == old(execSet)
        invariant all == prepared + FileRequests(files[i..], argument, i) && OutcomeOfAll(prepared, proc) == Done
      {
        NextFile(all, prepared, files, i, argument, proc);
        outcome := PrepareNext(Resolve(files[i], files[i].name, argument, i));
        if outcome != Done { return; }
      }
      assert files[|files|..] == [] && prepared + [] == prepared;
      outcome := Done;
    }

    /** A turn of the loop over the parameters of the query, of which `all` is everything to be prepared. */
    method PrepareUrl(urls: seq<Entry>, j: nat, argument: Lookup, at: nat, ghost all: seq<Request>)
      returns (outcome: Outcome)
      requires Synced() && OutcomeOfAll(prepared, proc) == Done
      requires j < |urls| && all == prepared + UrlRequests(urls[j..], argument, at + j)
      modifies this
      ensures execSet == old(execSet)
      ensures outcome == Done ==> Synced() && OutcomeOfAll(prepared, proc) == Done
      ensures outcome == Done ==> all == prepared + UrlRequests(urls[j + 1..], argument, at + (j + 1))
      ensures outcome != Done ==> OutcomeOfAll(all, proc) == outcome
    {
      var name := Trim(urls[j].name);
      NextUrl(all, prepared, urls, j, argument, at, proc);
      if name == "" {
        assert prepared + [] == prepared;
        return Done;
      }
      var p := Resolve(urls[j].(saved := true), name, argument, at + j);
      TurnAlone(p, proc);
      outcome := PrepareNext(p);
    }

    /** The loop over the parameters of the query, in any order. */
    method PrepareUrls(urls: seq<Entry>, argument: Lookup, at: nat) returns (outcome: Outcome)
      requires Synced() && OutcomeOfAll(prepared, proc) == Done
      modifies this
      ensures outcome == OutcomeOfAll(old(prepared) + UrlRequests(urls, argument, at), proc) && execSet == old(execSet)
      ensures outcome == Done ==> Synced() && prepared == old(prepared) + UrlRequests(urls, argument, at)
    {
      ghost var all := prepared + UrlRequests(urls, argument, at);
      for j := 0 to |urls|
        invariant Synced() && execSet == old(execSet)
        invariant all == prepared + UrlRequests(urls[j..], argument, at + j) && OutcomeOfAll(prepared, proc) == Done
      {
        outcome := PrepareUrl(urls, j, argument, at, all);
        if outcome != Done { return; }
      }
      assert urls[|urls|..] == [] && prepared + [] == prepared;
      outcome := Done;
    }

    /** The two loops: the outcome is that of the parameters in order, and at the end the buffers, the map and
        the extended parameters are theirs. */
    method Prepare(files: seq<Entry>, urls: seq<Entry>, argument: Lookup) returns (outcome: Outcome)
      requires Synced() && prepared == []
      modifies this
      ensures outcome == OutcomeOfAll(AllRequests(files, urls, argument), proc) && execSet == old(execSet)
      ensures outcome == Done ==> Synced() && prepared == AllRequests(files, urls, argument)
    {
      outcome := PrepareFiles(files, argument);
      OutcomeOfConcat(FileRequests(files, argument, 0), UrlRequests(urls, argument, |files|), proc);
      if outcome == Done {
        outcome := PrepareUrls(urls, argument, |files|);
      }
    }

    method WriteNames()
      modifies `execSet, `showSet
      ensures execSet == old(execSet) + Render(NameLines(extNames))
      ensures showSet == old(showSet) + Render(NameLines(extNames))
    {
      ghost var exec, show := execSet, showSet;
      for i := 0 to |extNames|
        invariant execSet == exec + Render(NameLines(extNames[..i]))
        invariant showSet == show + Render(NameLines(extNames[..i]))
      {
        var line := ExtLine(NAME_TARGET, i, Text.ToUpper(extNames[i]));
        execSet := execSet + Render(line);
        showSet := showSet + Render(line);
        NextName(extNames, i);
        RenderMore(exec, NameLines(extNames[..i]), line);
        RenderMore(show, NameLines(extNames[..i]), line);
      }
      assert extNames[..|extNames|] == extNames;
    }

    method WriteValues()
      modifies `execSet, `showSet
      ensures execSet == old(execSet) + Render(ValueLines(extValues))
      ensures showSet == old(showSet) + Render(ValueLines(extValues))
    {
      ghost var exec, show := execSet, showSet;
      for i := 0 to |extValues|
        invariant execSet == exec + Render(ValueLines(extValues[..i]))
        invariant showSet == show + Render(ValueLines(extValues[..i]))
      {
        var line := ExtLine(VALUE_TARGET, i, DoubleQuotes(extValues[i]));
        execSet := execSet + Render(line);
        showSet := showSet + Render(line);
        NextValue(extValues, i);
        RenderMore(exec, ValueLines(extValues[..i]), line);
        RenderMore(show, ValueLines(extValues[..i]), line);
      }
      assert extValues[..|extValues|] == extValues;
    }

    /** The lines for the parameters as a whole, in both blocks. */
    method WriteExtended()
      modifies `execSet, `showSet
      ensures execSet == old(execSet) + Render(ExtLines(extNames, extValues))
      ensures showSet == old(showSet) + Render(ExtLines(extNames, extValues))
    {
      ghost var exec, show := execSet, showSet;
      var count := CountLine(|extNames|);
      execSet := execSet + Render(count);
      showSet := showSet + Render(count);
      WriteNames();
      WriteValues();
      RenderMore(exec, count, NameLines(extNames));
      RenderMore(show, count, NameLines(extNames));
      RenderMore(exec, count + NameLines(extNames), ValueLines(extValues));
      RenderMore(show, count + NameLines(extNames), ValueLines(extValues));
    }

    /** What run writes behind the parameters. `made` says which of the four variables Oracle creates. */
    method Finish(package: Option<string>, made: Made) returns (outcome: Outcome)
      modifies `execSet, `showSet, `params
      ensures outcome == OutcomeOfFinish(package, made)
      ensures outcome == Done ==>
        && execSet == old(execSet) + Render(ExtLines(extNames, extValues))
        && params == WithFour(old(params), package.value, extNames, extValues)
    {
      if package.None? { return NotDescribed; }
      if !made.package { return NoVariable; }
      params := params["package_name" := BindValue.Text(package.value)];
      WriteExtended();
      if !made.names { return NoVariable; }
      params := params["ext_param_name" := Table(extNames)];
      if !made.values { return NoVariable; }
      params := params["ext_param_val" := Table(extValues)];
      if !made.count { return NoVariable; }
      params := params["num_ext_params" := Count(|extNames|)];
      outcome := Done;
    }

    /** The template with its holes filled. */
    method Statement(m: Template) returns (text: string)
      ensures text == Assembled(m, execSet, execStore, execArgs)
    {
      var call := Render(m.call) + (execArgs + Render(m.close));
      text := Render(m.open) + (execSet + (Render(m.middle) + (execStore + call)));
    }

    /** What run does behind the loops. */
    method Complete(package: Option<string>, made: Made, m: Template) returns (outcome: Outcome, text: string)
      modifies `execSet, `showSet, `params
      ensures outcome == OutcomeOfFinish(package, made)
      ensures outcome == Done ==>
        Completed(m, package.value, old(Now()), extNames, extValues, old(execSet), text, params)
    {
      text := "";
      outcome := Finish(package, made);
      if outcome == Done { text := Statement(m); }
    }

    method PrepareAndComplete(
        files: seq<Entry>, urls: seq<Entry>, argument: Lookup, package: Option<string>, made: Made, m: Template)
      returns (outcome: Outcome, text: string)
      requires Synced() && prepared == []
      modifies this
      ensures outcome == Done ==> package.Some?
      ensures forall ps | ps == AllRequests(files, urls, argument) ::
        && outcome == OutcomeOfBuild(ps, proc, package, made)
        && (outcome == Done ==>
              Completed(m, package.value, Behind(first, TextsOf(ps, proc)), Names(ps), Firsts(ps), old(execSet),
                        text, params))
    {
      text := "";
      outcome := Prepare(files, urls, argument);
      if outcome == Done { outcome, text := Complete(package, made, m); }
    }
  }

  function WithFour(binds: map<string, BindValue>, package: string, names: seq<string>, values: seq<string>)
    : map<string, BindValue>
  {
    binds["package_name" := BindValue.Text(package)]["ext_param_name" := Table(names)]["ext_param_val" := Table(values)]
      ["num_ext_params" := Count(|names|)]
  }

  function Assembled(m: Template, execSet: string, execStore: string, execArgs: string): string {
    Render(m.open) + (execSet + (Render(m.middle) + (execStore + (Render(m.call) + (execArgs + Render(m.close))))))
  }

  /** What is executed for the parameters `ps`: the statement and the map. */
  predicate Executes(
      m: Template, env: seq<Variable>, ps: seq<Request>, proc: string, package: string, text: string,
      binds: map<string, BindValue>)
  {
    text == Render(Whole(m, ps, proc)) && binds == AllBinds(OwnBinds(env), ps, proc, LateBinds(ps, package))
  }

  /** The loop over the environment. */
  method WriteEnvironment(env: seq<Variable>) returns (showSet: string)
    ensures showSet == Render(EnvLines(env, |env|))
  {
    showSet := Render(EnvLines(env, 0));
    for i := 0 to |env|
      invariant showSet == Render(EnvLines(env, i))
    {
      var name, value := ExtLine("  l_param_name", i, env[i].name), ExtLine("  l_param_val", i, env[i].value);
      showSet := showSet + Render(name);
      showSet := showSet + Render(value);
      TwoMore(EnvLines(env, i), name, value);
    }
  }

  /** All that run does until it executes the statement: how it ends, and if it gets there, the statement and
      the map that are executed. */
  method Build(
      proc: string, env: seq<Variable>, files: seq<Entry>, urls: seq<Entry>, argument: Lookup,
      package: Option<string>, made: Made, m: Template)
    returns (outcome: Outcome, text: string, binds: map<string, BindValue>)
    ensures forall ps | ps == AllRequests(files, urls, argument) ::
      && outcome == OutcomeOfBuild(ps, proc, package, made)
      && (outcome == Done ==> Executes(m, env, ps, proc, package.value, text, binds))
  {
    binds := map[];
    var showSet := WriteEnvironment(env);
    var b := new Builder(proc, Render(Init()), showSet, OwnBinds(env));
    outcome, text := b.PrepareAndComplete(files, urls, argument, package, made, m);
    if outcome == Done {
      binds := b.params;
      forall ps | ps == AllRequests(files, urls, argument)
        ensures Executes(m, env, ps, proc, package.value, text, binds)
      {
        FinishedParts(m, env, ps, proc, package.value, b.first, Render(Init()), text, binds);
      }
    }
  }

  /** What Complete leaves, in terms of what it found. */
  predicate Completed(
      m: Template, package: string, t: Texts, names: seq<string>, values: seq<string>, execSet: string, text: string,
      binds: map<string, BindValue>)
  {
    && text == Assembled(m, execSet + Render(ExtLines(names, values)), t.execStore, t.execArgs)
    && binds == WithFour(t.binds, package, names, values)
  }

  lemma FinishedParts(
      m: Template, env: seq<Variable>, ps: seq<Request>, proc: string, package: string, first: Texts,
      execSet: string, text: string, binds: map<string, BindValue>)
    requires first.binds == OwnBinds(env) && execSet == Render(Init())
    requires Completed(m, package, Behind(first, TextsOf(ps, proc)), Names(ps), Firsts(ps), execSet, text, binds)
    ensures Executes(m, env, ps, proc, package, text, binds)
  {
    RenderWhole(m, ps, proc);
    FourMore(OwnBinds(env) + Binds(ps, proc), ps, package);
  }

  /** Which of the variables written last Oracle creates. */
  datatype Made = Made(package: bool, names: bool, values: bool, count: bool)

  function OutcomeOfFinish(package: Option<string>, made: Made): Outcome {
    if package.None? then NotDescribed
    else if made.package && made.names && made.values && made.count then Done
    else NoVariable
  }

  function OutcomeOfBuild(ps: seq<Request>, proc: string, package: Option<string>, made: Made): Outcome {
    if OutcomeOfAll(ps, proc) != Done then OutcomeOfAll(ps, proc) else OutcomeOfFinish(package, made)
  }

  lemma FourMore(binds: map<string, BindValue>, ps: seq<Request>, package: string)
    ensures WithFour(binds, package, Names(ps), Firsts(ps)) == binds + LateBinds(ps, package)
  {
    SameLength(ps);
  }

  lemma {:induction false} SameLength(ps: seq<Request>)
    ensures |Names(ps)| == |ps|
  {
    if ps != [] { SameLength(ps[..|ps| - 1]); }
  }

  lemma RenderFive(a: seq<Segment>, b: seq<Segment>, c: seq<Segment>, d: seq<Segment>, e: seq<Segment>)
    ensures Render(a + (b + (c + (d + e)))) == Render(a) + (Render(b) + (Render(c) + (Render(d) + Render(e))))
  {
    RenderConcat(d, e);
    RenderConcat(c, d + e);
    RenderConcat(b, c + (d + e));
    RenderConcat(a, b + (c + (d + e)));
  }

  lemma RenderWhole(m: Template, ps: seq<Request>, proc: string)
    ensures Render(Whole(m, ps, proc)) ==
      Render(m.open) + ((Render(Init()) + Render(Ext(ps))) + (Render(m.middle) + (Render(ExecStores(ps, proc))
        + (Render(m.call) + (Render(Joined(ExecArgs(ps))) + Render(m.close))))))
  {
    RenderConcat(Ext(ps), Rest(m, ps, proc));
    RenderConcat(Init(), Ext(ps) + Rest(m, ps, proc));
    RenderConcat(m.open, Init() + (Ext(ps) + Rest(m, ps, proc)));
    RenderFive(m.middle, ExecStores(ps, proc), m.call, Joined(ExecArgs(ps)), m.close);
    Reassociate(Render(Init()), Render(Ext(ps)), Render(Rest(m, ps, proc)));
  }

  lemma NextName(names: seq<string>, i: nat)
    requires i < |names|
    ensures NameLines(names[..i + 1]) == NameLines(names[..i]) + ExtLine(NAME_TARGET, i, Text.ToUpper(names[i]))
  {
    UppersAt(names[..i]);
    assert names[..i + 1][..i] == names[..i];
    assert Uppers(names[..i + 1])[..i] == Uppers(names[..i]);
  }

  lemma NextValue(values: seq<string>, i: nat)
    requires i < |values|
    ensures ValueLines(values[..i + 1]) == ValueLines(values[..i]) + ExtLine(VALUE_TARGET, i, DoubleQuotes(values[i]))
  {
    DoubledAt(values[..i]);
    assert values[..i + 1][..i] == values[..i];
    assert Doubled(values[..i + 1])[..i] == Doubled(values[..i]);
  }

  lemma LastDropped(ps: seq<Request>, p: Request)
    ensures (ps + [p])[..|ps|] == ps
  {
  }

  lemma OneNameMore(ps: seq<Request>, p: Request)
    requires p.values != []
    ensures Names(ps + [p]) == Names(ps) + [p.name]
    ensures Firsts(ps + [p]) == Firsts(ps) + [p.values[0]]
  {
    assert (ps + [p])[..|ps|] == ps;
  }

  lemma RenderMore(before: string, gs: seq<Segment>, line: seq<Segment>)
    ensures before + Render(gs) + Render(line) == before + Render(gs + line)
  {
    RenderConcat(gs, line);
    assert before + Render(gs) + Render(line) == before + (Render(gs) + Render(line));
  }

  lemma RenderNonEmpty(items: seq<seq<Segment>>)
    requires items != [] && Render(items[0]) != ""
    ensures Render(Joined(items)) != ""
  {
    if |items| > 1 {
      RenderConcat(items[0], [Plain(", ")]);
      RenderConcat(items[0] + [Plain(", ")], Joined(items[1..]));
    }
  }

  lemma RenderExtended(items: seq<seq<Segment>>, item: seq<Segment>)
    requires items != [] ==> Render(items[0]) != ""
    ensures Render(Joined(items + [item])) == Extended(Render(Joined(items)), Render(item))
  {
    JoinedAppend(items, item);
    if items != [] {
      RenderNonEmpty(items);
      RenderConcat(Joined(items), [Plain(", ")]);
      RenderConcat(Joined(items) + [Plain(", ")], item);
      RenderSingle(Plain(", "));
    }
  }

  lemma FirstArgument(ps: seq<Request>)
    ensures ExecArgs(ps) != [] ==> Render(ExecArgs(ps)[0]) != ""
    ensures ShowArgs(ps) != [] ==> Render(ShowArgs(ps)[0]) != ""
  {
    SameArguments(ps);
    if Arguments(ps) != [] {
      var p := Arguments(ps)[0];
      ArgumentIsParameter(ps, 0);
      ExecArgumentText(p);
      ShowArgumentText(p);
      assert ExecArgs(ps)[0] == ExecArgument(p)[0] && ShowArgs(ps)[0] == ShowArgument(p)[0];
    }
  }

  lemma ArgumentsStep(ps: seq<Request>, p: Request)
    ensures Render(Joined(ExecArgs(ps) + ExecArgument(p))) ==
      if p.Kind().Foreign? then Render(Joined(ExecArgs(ps))) else Extended(Render(Joined(ExecArgs(ps))), ExecText(p))
    ensures Render(Joined(ShowArgs(ps) + ShowArgument(p))) ==
      if p.Kind().Foreign? then Render(Joined(ShowArgs(ps))) else Extended(Render(Joined(ShowArgs(ps))), ShowText(p))
  {
    if p.Kind().Foreign? {
      assert ExecArgs(ps) + [] == ExecArgs(ps) && ShowArgs(ps) + [] == ShowArgs(ps);
    } else {
      FirstArgument(ps);
      ExecArgumentText(p);
      ShowArgumentText(p);
      RenderExtended(ExecArgs(ps), ExecArgument(p)[0]);
      RenderExtended(ShowArgs(ps), ShowArgument(p)[0]);
    }
  }

  lemma LinesStep(ps: seq<Request>, p: Request, proc: string)
    ensures Render(Declares(ps + [p])) == Render(Declares(ps)) + Render(DeclareLine(p.name, TypeText(p)))
    ensures Render(AssignsOf(ps + [p])) == Render(AssignsOf(ps)) + Render(Assigns(p))
    ensures Render(ExecStores(ps + [p], proc)) == Render(ExecStores(ps, proc)) + Render(Stores(p, proc, CopyOf(p)))
    ensures Render(ShowStores(ps + [p], proc)) == Render(ShowStores(ps, proc)) + Render(Stores(p, proc, Var(p.name)))
  {
    LastDropped(ps, p);
    RenderConcat(Declares(ps), DeclareLine(p.name, TypeText(p)));
    RenderConcat(AssignsOf(ps), Assigns(p));
    RenderConcat(ExecStores(ps, proc), Stores(p, proc, CopyOf(p)));
    RenderConcat(ShowStores(ps, proc), Stores(p, proc, Var(p.name)));
  }

  lemma ListsStep(ps: seq<Request>, p: Request, proc: string)
    ensures ExecArgs(ps + [p]) == ExecArgs(ps) + ExecArgument(p) && ShowArgs(ps + [p]) == ShowArgs(ps) + ShowArgument(p)
    ensures Binds(ps + [p], proc) == BindStored(BindArgument(Binds(ps, proc), p), p, proc)
  {
    LastDropped(ps, p);
  }

  /** One parameter more makes the texts grow as the buffers do. */
  lemma TextsStep(ps: seq<Request>, p: Request, proc: string)
    ensures TextsOf(ps + [p], proc) == Grown(TextsOf(ps, proc), p, proc)
  {
    LinesStep(ps, p, proc);
    ListsStep(ps, p, proc);
    ArgumentsStep(ps, p);
  }

  lemma NothingYet(first: Texts, proc: string)
    requires first == Texts("", first.showSet, "", "", "", "", first.binds)
    ensures Behind(first, TextsOf([], proc)) == first
  {
    assert first.showSet + "" == first.showSet && first.binds + map[] == first.binds;
  }

  lemma TwoMore(gs: seq<Segment>, a: seq<Segment>, b: seq<Segment>)
    ensures Render(gs) + Render(a) + Render(b) == Render(gs + (a + b))
  {
    RenderConcat(a, b);
    RenderConcat(gs, a + b);
    Reassociate(Render(gs), Render(a), Render(b));
  }

  lemma BindsBehind(first: map<string, BindValue>, binds: map<string, BindValue>, p: Request, proc: string)
    ensures BindStored(BindArgument(first + binds, p), p, proc) == first + BindStored(BindArgument(binds, p), p, proc)
  {
  }

  /** Buffers that start with something grow in the same way. */
  lemma BehindGrown(first: Texts, t: Texts, p: Request, proc: string)
    ensures Grown(Behind(first, t), p, proc) == Behind(first, Grown(t, p, proc))
  {
    BindsBehind(first.binds, t.binds, p, proc);
    Reassociate(first.showSet, t.showSet, Render(Assigns(p)));
  }

  lemma BehindStep(first: Texts, ps: seq<Request>, p: Request, proc: string)
    ensures Behind(first, TextsOf(ps + [p], proc)) == Grown(Behind(first, TextsOf(ps, proc)), p, proc)
  {
    TextsStep(ps, p, proc);
    BehindGrown(first, TextsOf(ps, proc), p, proc);
  }

  lemma {:induction false} OutcomeOfConcat(a: seq<Request>, b: seq<Request>, proc: string)
    ensures OutcomeOfAll(a + b, proc) ==
      if OutcomeOfAll(a, proc) != Done then OutcomeOfAll(a, proc) else OutcomeOfAll(b, proc)
  {
    if a == [] {
      assert a + b == b;
    } else {
      assert (a + b)[1..] == a[1..] + b;
      OutcomeOfConcat(a[1..], b, proc);
    }
  }

  lemma OutcomeStep(before: seq<Request>, r: seq<Request>, rest: seq<Request>, proc: string)
    requires OutcomeOfAll(before, proc) == Done
    ensures before + (r + rest) == (before + r) + rest
    ensures OutcomeOfAll(before + r, proc) == OutcomeOfAll(r, proc)
    ensures OutcomeOfAll(r, proc) != Done ==> OutcomeOfAll(before + (r + rest), proc) == OutcomeOfAll(r, proc)
  {
    OutcomeOfConcat(before, r, proc);
    OutcomeOfConcat(before, r + rest, proc);
    OutcomeOfConcat(r, rest, proc);
  }

  lemma TurnAlone(p: Request, proc: string)
    ensures OutcomeOfAll([p], proc) == OutcomeOfTurn(p, proc)
  {
  }

  lemma NextUrl(
      all: seq<Request>, done: seq<Request>, urls: seq<Entry>, j: nat, argument: Lookup, at: nat, proc: string)
    requires j < |urls| && all == done + UrlRequests(urls[j..], argument, at + j) && OutcomeOfAll(done, proc) == Done
    ensures var r := UrlRequest(urls[j], argument, at + j);
      && all == (done + r) + UrlRequests(urls[j + 1..], argument, at + (j + 1))
      && OutcomeOfAll(done + r, proc) == OutcomeOfAll(r, proc)
      && (OutcomeOfAll(r, proc) != Done ==> OutcomeOfAll(all, proc) == OutcomeOfAll(r, proc))
  {
    var r, rest := UrlRequest(urls[j], argument, at + j), UrlRequests(urls[j + 1..], argument, at + (j + 1));
    assert urls[j..][1..] == urls[j + 1..];
    OutcomeStep(done, r, rest, proc);
  }

  lemma NextFile(all: seq<Request>, done: seq<Request>, files: seq<Entry>, i: nat, argument: Lookup, proc: string)
    requires i < |files| && all == done + FileRequests(files[i..], argument, i) && OutcomeOfAll(done, proc) == Done
    ensures var p := Resolve(files[i], files[i].name, argument, i);
      && all == (done + [p]) + FileRequests(files[i + 1..], argument, i + 1)
      && OutcomeOfAll(done + [p], proc) == OutcomeOfTurn(p, proc)
      && (OutcomeOfTurn(p, proc) != Done ==> OutcomeOfAll(all, proc) == OutcomeOfTurn(p, proc))
  {
    var p, rest := Resolve(files[i], files[i].name, argument, i), FileRequests(files[i + 1..], argument, i + 1);
    assert files[i..][1..] == files[i + 1..];
    TurnAlone(p, proc);
    OutcomeStep(done, [p], rest, proc);
  }

  /** When the loops come to their end, the placeholders of the statement and the keys of the map are the same. */
  lemma FinishedPlaceholders(m: Template, env: seq<Variable>, ps: seq<Request>, proc: string, package: string)
    requires Fits(m) && OutcomeOfAll(ps, proc) == Done
    ensures BindNames(Whole(m, ps, proc)) == AllBinds(OwnBinds(env), ps, proc, LateBinds(ps, package)).Keys
  {
    DoneHasValues(ps, proc);
    NoEmptyCopies(ps, proc);
    WholePlaceholders(m, env, ps, proc, package);
  }

  /** And a scanner reads the statement as it was meant exactly when all of it can be read, and then finds
      in it exactly these keys. */
  lemma FinishedText(m: Template, env: seq<Variable>, ps: seq<Request>, proc: string, package: string)
    requires Fits(m) && Quiet(proc) && OutcomeOfAll(ps, proc) == Done
    ensures Scan(Render(Whole(m, ps, proc))) == Meant(m, ps, proc) <==> WholeReads(ps, proc)
    ensures WholeReads(ps, proc) ==>
      Found(Render(Whole(m, ps, proc))) == AllBinds(OwnBinds(env), ps, proc, LateBinds(ps, package)).Keys
  {
    DoneHasValues(ps, proc);
    NoEmptyCopies(ps, proc);
    WholeReadExactly(m, ps, proc);
    if WholeReads(ps, proc) { WholeFound(m, env, ps, proc, package); }
  }
}
