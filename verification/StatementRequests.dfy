/** Which parameters a request is prepared into, and when preparing succeeds. */
module StatementRequests {
  import opened Collections
  import opened StatementText
  import opened StatementParts
  import opened StatementBinds
  import opened StatementReading
  import opened StatementLines
  import opened StatementBuilder
  import ExtendedParameters
  import Text

  // ---------- Names ----------

  predicate Spaces(s: string) { forall i | 0 <= i < |s| :: s[i] == ' ' }

  lemma {:induction false} TrimLeftExactly(s: string) returns (i: nat)
    ensures i <= |s| && TrimLeft(s) == s[i..] && Spaces(s[..i]) && (s[i..] != [] ==> s[i] != ' ')
  {
    if s != [] && s[0] == ' ' {
      i := TrimLeftExactly(s[1..]);
      assert s[i + 1..] == s[1..][i..];
      assert forall k | 0 < k <= i :: s[k] == s[1..][..i][k - 1];
      i := i + 1;
    } else {
      i := 0;
    }
  }

  lemma {:induction false} TrimRightExactly(s: string) returns (j: nat)
    ensures j <= |s| && TrimRight(s) == s[..j] && Spaces(s[j..]) && (j > 0 ==> s[j - 1] != ' ')
  {
    var n := |s| - 1;
    if s != [] && s[n] == ' ' {
      j := TrimRightExactly(s[..n]);
      assert s[..n][..j] == s[..j];
      assert forall k | j <= k < n :: s[k] == s[..n][j..][k - j];
    } else {
      j := |s|;
    }
  }

  /** A trimmed name is the part of the name between the spaces at its head and those at its end. */
  lemma TrimExactly(s: string) returns (i: nat, j: nat)
    ensures i <= j <= |s| && Trim(s) == s[i..j]
    ensures Spaces(s[..i]) && Spaces(s[j..]) && (i < j ==> s[i] != ' ' && s[j - 1] != ' ')
  {
    i := TrimLeftExactly(s);
    var k := TrimRightExactly(s[i..]);
    j := i + k;
    assert s[i..][..k] == s[i..j] && s[i..][k..] == s[j..];
    if i < j { assert s[i..][k - 1] == s[j - 1] && s[i..j][0] == s[i]; }
  }

  // ---------- Which parameters ----------

  /** `p` is the parameter that an entry of the request is prepared into, under `name`. */
  predicate PreparedAs(p: Request, e: Entry, name: string, argument: Lookup, at: nat) {
    && p.name == name && p.values == e.values && p.bound == e.bound && p.stored == e.stored
    && (p.code, p.typeName) == argument(at, name)
  }

  /** Parameter `j` of the query has a name besides spaces. */
  function HasName(urls: seq<Entry>): nat -> bool {
    (j: nat) => j < |urls| && !Spaces(urls[j].name)
  }

  function Resolved(urls: seq<Entry>, argument: Lookup, at: nat): seq<Request> {
    seq(|urls|, j requires 0 <= j < |urls| => Resolve(urls[j].(saved := true), Trim(urls[j].name), argument, at + j))
  }

  lemma BlankIsSpaces(s: string)
    ensures Trim(s) == "" <==> Spaces(s)
  {
    var i, j := TrimExactly(s);
    if i == j {
      assert s == s[..i] + s[i..];
      assert forall k | 0 <= k < |s| :: if k < i then s[k] == s[..i][k] else s[k] == s[j..][k - j];
    } else {
      assert s[i] != ' ';
    }
  }

  /** Request `i` is what file `i` is prepared into. */
  predicate FileAt(rs: seq<Request>, files: seq<Entry>, argument: Lookup, at: nat, i: nat)
    requires i < |files|
  {
    && i < |rs| && PreparedAs(rs[i], files[i], files[i].name, argument, at + i)
    && rs[i].saved == files[i].saved
  }

  lemma {:induction false} FilesPrepared(files: seq<Entry>, argument: Lookup, at: nat)
    ensures |FileRequests(files, argument, at)| == |files|
    ensures forall i | 0 <= i < |files| :: FileAt(FileRequests(files, argument, at), files, argument, at, i)
  {
    if files != [] {
      var rs := FileRequests(files[1..], argument, at + 1);
      FilesPrepared(files[1..], argument, at + 1);
      assert FileRequests(files, argument, at) == [Resolve(files[0], files[0].name, argument, at)] + rs;
      forall i | 0 <= i < |files| ensures FileAt(FileRequests(files, argument, at), files, argument, at, i) {
        if i > 0 { assert FileAt(rs, files[1..], argument, at + 1, i - 1); }
      }
    }
  }

  lemma InARow(a: seq<Request>, b: seq<Request>, c: seq<Request>)
    ensures a + (b + c) == (a + b) + c
  {
  }

  lemma {:induction false} UrlsConcat(a: seq<Entry>, b: seq<Entry>, argument: Lookup, at: nat)
    ensures UrlRequests(a + b, argument, at) == UrlRequests(a, argument, at) + UrlRequests(b, argument, at + |a|)
  {
    if a == [] {
      assert a + b == b && UrlRequests(a, argument, at) == [];
    } else {
      var first, middle := UrlRequest(a[0], argument, at), UrlRequests(a[1..], argument, at + 1);
      UrlsConcat(a[1..], b, argument, at + 1);
      var last := UrlRequests(b, argument, at + |a|);
      FirstOfBoth(a, b);
      assert UrlRequests(a + b, argument, at) == first + (middle + last);
      InARow(first, middle, last);
    }
  }

  lemma FirstOfBoth(a: seq<Entry>, b: seq<Entry>)
    requires a != []
    ensures (a + b)[0] == a[0] && (a + b)[1..] == a[1..] + b
  {
  }

  lemma NothingMore(rs: seq<Request>)
    ensures rs + [] == rs
  {
  }

  lemma UrlStep(urls: seq<Entry>, argument: Lookup, at: nat, n: nat)
    requires n < |urls|
    ensures UrlRequests(urls[..n + 1], argument, at) == UrlRequests(urls[..n], argument, at) +
      if HasName(urls)(n) then [Resolved(urls, argument, at)[n]] else []
  {
    assert urls[..n + 1] == urls[..n] + [urls[n]];
    UrlsConcat(urls[..n], [urls[n]], argument, at);
    LastUrl(urls[n], argument, at + n);
  }

  /** Every parameter of the query whose name is not blank is prepared, in the order of the query, and no other. */
  lemma {:induction false} UrlsPrepared(urls: seq<Entry>, argument: Lookup, at: nat, n: nat)
    requires n <= |urls|
    ensures Placed(UrlRequests(urls[..n], argument, at), n, HasName(urls), Resolved(urls, argument, at))
  {
    if n == 0 {
      NonePlaced(HasName(urls), Resolved(urls, argument, at));
    } else {
      UrlsPrepared(urls, argument, at, n - 1);
      UrlStep(urls, argument, at, n - 1);
      PlacedStep(UrlRequests(urls[..n - 1], argument, at), n - 1, HasName(urls), Resolved(urls, argument, at));
      NothingMore(UrlRequests(urls[..n - 1], argument, at));
    }
  }

  lemma LastUrl(e: Entry, argument: Lookup, at: nat)
    ensures UrlRequests([e], argument, at) ==
      if Spaces(e.name) then [] else [Resolve(e.(saved := true), Trim(e.name), argument, at)]
  {
    assert [e][1..] == [] && UrlRequests([], argument, at + 1) == [];
    assert UrlRequest(e, argument, at) + [] == UrlRequest(e, argument, at);
    BlankIsSpaces(e.name);
  }

  /** Resolving keeps what the request has, and asks for the argument of that name. */
  lemma ResolvedAs(e: Entry, name: string, argument: Lookup, at: nat)
    ensures PreparedAs(Resolve(e, name, argument, at), e, name, argument, at)
    ensures Resolve(e, name, argument, at).saved == e.saved
  {
  }

  /** What is prepared: the files in their order, and behind them the parameters of the query that have a name, in
      theirs: each is where the number of named ones before it says. */
  lemma RequestsExactly(files: seq<Entry>, urls: seq<Entry>, argument: Lookup)
    ensures var ps := AllRequests(files, urls, argument);
      && |ps| == |files| + HowMany(|urls|, HasName(urls))
      && (forall i | 0 <= i < |files| :: FileAt(ps[..|files|], files, argument, 0, i))
      && Placed(ps[|files|..], |urls|, HasName(urls), Resolved(urls, argument, |files|))
  {
    FilesPrepared(files, argument, 0);
    UrlsPrepared(urls, argument, |files|, |urls|);
    assert urls[..|urls|] == urls;
    var ps, before := AllRequests(files, urls, argument), FileRequests(files, argument, 0);
    assert ps[..|files|] == before && ps[|files|..] == UrlRequests(urls, argument, |files|);
  }

  // ---------- When preparing succeeds ----------

  /** The parameter was saved if it is a file, has a value, is no table of booleans, and Oracle creates its variables:
      one if the procedure has it, one for the copy that is saved. */
  predicate Preparable(p: Request, proc: string) {
    && p.saved && p.values != [] && p.code != 14
    && (p.code in [1, 2, 3, 4, 5, 11, 12, 13, 15] ==> p.bound)
    && (proc != "" && p.code != 4 ==> p.stored)
  }

  lemma TurnExactly(p: Request, proc: string)
    ensures OutcomeOfTurn(p, proc) == Done <==> Preparable(p, proc)
  {
    KindCodes(p.code);
  }

  /** The loops come to their end exactly when every parameter can be prepared; otherwise they end as the first that
      cannot. */
  lemma {:induction false} OutcomeExactly(ps: seq<Request>, proc: string)
    ensures OutcomeOfAll(ps, proc) == Done <==> forall p <- ps :: Preparable(p, proc)
    ensures forall i | 0 <= i < |ps| && !Preparable(ps[i], proc) && (forall p <- ps[..i] :: Preparable(p, proc)) ::
      OutcomeOfAll(ps, proc) == OutcomeOfTurn(ps[i], proc)
  {
    if ps != [] {
      var rest := ps[1..];
      TurnExactly(ps[0], proc);
      OutcomeExactly(rest, proc);
      assert ps == [ps[0]] + rest;
      forall i | 0 <= i < |ps| && !Preparable(ps[i], proc) && (forall p <- ps[..i] :: Preparable(p, proc))
        ensures OutcomeOfAll(ps, proc) == OutcomeOfTurn(ps[i], proc)
      {
        if i > 0 {
          assert ps[0] in ps[..i];
          assert forall p <- rest[..i - 1] :: p in ps[..i];
          assert rest[i - 1] == ps[i];
        }
      }
    }
  }

  /** A file that could not be saved comes first; then a table of booleans is refused, a single value that is missing
      makes the code panic, a variable may not be created; and an empty table panics last. */
  lemma FailureExactly(p: Request, proc: string)
    requires !Preparable(p, proc)
    ensures OutcomeOfTurn(p, proc) ==
      if !p.saved then NotSaved
      else if p.code == 14 then BadSubtype
      else if p.values == [] && p.code !in [11, 12, 13, 15] then Panicked
      else if (p.code in [1, 2, 3, 4, 5, 11, 12, 13, 15] && !p.bound)
              || (proc != "" && p.code != 4 && !p.stored) then NoVariable
      else Panicked
  {
    KindCodes(p.code);
  }

  // ---------- The shown environment ----------

  /** Name and value of one variable, as they are shown. */
  function VariableText(env: seq<Variable>): nat -> string {
    (i: nat) =>
      if i < |env| then IndexedLine("  l_param_name", i, env[i].name) + IndexedLine("  l_param_val", i, env[i].value)
      else ""
  }

  /** The shown block begins with the number of variables of the environment, their names and their values. */
  lemma {:induction false} EnvText(env: seq<Variable>, n: nat)
    requires n <= |env|
    ensures Render(EnvLines(env, n)) ==
      ("  l_num_params := " + Text.Decimal(|env|) + ";\n") + Glued(Numbered(n, VariableText(env)))
  {
    if n == 0 {
      RenderSingle(EnvLines(env, 0)[0]);
    } else {
      var name, value := ExtendedParameters.ExtLine("  l_param_name", n - 1, env[n - 1].name),
                         ExtendedParameters.ExtLine("  l_param_val", n - 1, env[n - 1].value);
      EnvText(env, n - 1);
      ExtLineText("  l_param_name", n - 1, env[n - 1].name);
      ExtLineText("  l_param_val", n - 1, env[n - 1].value);
      RenderConcat(name, value);
      RenderConcat(EnvLines(env, n - 1), name + value);
      GluedStep(n - 1, VariableText(env));
      Reassociate("  l_num_params := " + Text.Decimal(|env|) + ";\n", Glued(Numbered(n - 1, VariableText(env))),
                  VariableText(env)(n - 1));
    }
  }
}
