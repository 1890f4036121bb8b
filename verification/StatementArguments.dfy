/** The argument lists of the executed and of the shown call, as text. */
module StatementArguments {
  import opened StatementText
  import opened StatementParts
  import opened StatementReading

  /** The texts of the arguments. */
  function Texts(items: seq<seq<Segment>>): seq<string> {
    if items == [] then [] else [Render(items[0])] + Texts(items[1..])
  }

  /** What splitting gives for each argument, one after the other. */
  function Splittings(items: seq<seq<Segment>>): seq<string> {
    if items == [] then [] else SplitCommas(Render(items[0])) + Splittings(items[1..])
  }

  lemma {:induction false} SplitJoined(items: seq<seq<Segment>>)
    requires items != []
    ensures SplitCommas(Render(Joined(items))) == Splittings(items)
  {
    if |items| == 1 {
      assert Splittings(items[1..]) == [];
    } else {
      var rest := Joined(items[1..]);
      SplitJoined(items[1..]);
      RenderConcat(items[0], [Plain(", ")]);
      RenderConcat(items[0] + [Plain(", ")], rest);
      RenderSingle(Plain(", "));
      SplitOfConcat(Render(items[0]), Render(rest));
    }
  }

  lemma {:induction false} SplittingsExactly(items: seq<seq<Segment>>)
    ensures |Splittings(items)| >= |items| == |Texts(items)|
    ensures Splittings(items) == Texts(items) <==> forall i | 0 <= i < |items| :: !Splits(Render(items[i]))
    ensures Splittings(items) != Texts(items) ==> |Splittings(items)| > |items|
  {
    if items != [] {
      var rest := items[1..];
      SplittingsExactly(rest);
      SplitExactly(Render(items[0]));
      assert forall i | 0 < i < |items| :: items[i] == rest[i - 1];
      assert forall i | 0 <= i < |rest| :: rest[i] == items[i + 1];
      if !Splits(Render(items[0])) {
        assert Splittings(items)[1..] == Splittings(rest) && Texts(items)[1..] == Texts(rest);
      }
    }
  }

  function ExecText(p: Request): string {
    p.name + " => :" + p.name + if p.Kind().Boolean? then " = 'true'" else ""
  }

  lemma ExecArgumentText(p: Request)
    requires !p.Kind().Foreign?
    ensures Render(ExecArgument(p)[0]) == ExecText(p)
  {
    var n := p.name;
    RenderPair(n + " => ", Bind(n));
    assert n + " => " + (":" + n) == n + " => :" + n;
    if p.Kind().Boolean? {
      RenderPair(" = ", Quoted("true"));
      RenderConcat([Plain(n + " => "), Bind(n)], [Plain(" = "), Quoted("true")]);
      assert ExecArgument(p)[0] == [Plain(n + " => "), Bind(n)] + [Plain(" = "), Quoted("true")];
    }
  }

  function ShowText(p: Request): string {
    p.name + " => l_" + p.name
  }

  lemma ShowArgumentText(p: Request)
    requires !p.Kind().Foreign?
    ensures Render(ShowArgument(p)[0]) == ShowText(p)
  {
    RenderPair(p.name + " => ", Var(p.name));
    assert p.name + " => " + ("l_" + p.name) == p.name + " => l_" + p.name;
  }

  lemma TextsSplit(p: Request)
    ensures Splits(ExecText(p)) <==> Splits(p.name + " ")
    ensures Splits(ShowText(p)) <==> Splits(p.name + " ")
  {
    var n := p.name;
    SplitsOfConcat(n, " ");
    ShowTextSplits(n);
    ExecTextSplits(n, if p.Kind().Boolean? then " = 'true'" else "");
    assert ExecText(p) == (n + " ") + ("=> :" + (n + if p.Kind().Boolean? then " = 'true'" else ""));
    assert ShowText(p) == (n + " ") + ("=> l_" + n);
  }

  lemma ShowTextSplits(n: string)
    ensures Splits((n + " ") + ("=> l_" + n)) <==> Splits(n + " ")
  {
    SplitsOfConcat(n, " ");
    SplitsOfConcat("=> l_", n);
    SplitsOfConcat(n + " ", "=> l_" + n);
    NoCommaNoSplit("=> l_");
  }

  lemma ExecTextSplits(n: string, suffix: string)
    requires suffix == "" || suffix == " = 'true'"
    ensures Splits((n + " ") + ("=> :" + (n + suffix))) <==> Splits(n + " ")
  {
    SplitsOfConcat("=> :", n + suffix);
    SplitsOfConcat(n + " ", "=> :" + (n + suffix));
    NoCommaNoSplit("=> :");
    NameSplits(n, suffix);
  }

  lemma NameSplits(n: string, suffix: string)
    requires suffix == "" || suffix == " = 'true'"
    ensures Splits(n + suffix) ==> Splits(n + " ")
  {
    SplitsOfConcat(n, " ");
    if suffix == "" {
      assert n + suffix == n;
    } else {
      NoCommaNoSplit("= 'true'");
      assert n + suffix == (n + " ") + "= 'true'";
      SplitsOfConcat(n + " ", "= 'true'");
    }
  }

  lemma {:induction false} NoCommaNoSplit(s: string)
    requires ',' !in s
    ensures !Splits(s)
    decreases |s|
  {
    if |s| > 1 {
      assert s[0] in s;
      NoCommaNoSplit(s[1..]);
    }
  }

  function ExecTexts(args: seq<Request>): seq<string> {
    if args == [] then [] else [ExecText(args[0])] + ExecTexts(args[1..])
  }

  function ShowTexts(args: seq<Request>): seq<string> {
    if args == [] then [] else [ShowText(args[0])] + ShowTexts(args[1..])
  }

  /** Arguments whose texts are those of `args`. */
  lemma {:induction false} TextsOfItems(exec: seq<seq<Segment>>, show: seq<seq<Segment>>, args: seq<Request>)
    requires |exec| == |show| == |args|
    requires forall i | 0 <= i < |args| :: Render(exec[i]) == ExecText(args[i]) && Render(show[i]) == ShowText(args[i])
    ensures Texts(exec) == ExecTexts(args) && Texts(show) == ShowTexts(args)
  {
    if args != [] {
      TextsOfItems(exec[1..], show[1..], args[1..]);
    }
  }

  lemma ItemTexts(ps: seq<Request>)
    ensures var args := Arguments(ps);
      && |ExecArgs(ps)| == |ShowArgs(ps)| == |args|
      && forall i | 0 <= i < |args| ::
           Render(ExecArgs(ps)[i]) == ExecText(args[i]) && Render(ShowArgs(ps)[i]) == ShowText(args[i])
  {
    var args := Arguments(ps);
    SameArguments(ps);
    forall i | 0 <= i < |args|
      ensures Render(ExecArgs(ps)[i]) == ExecText(args[i]) && Render(ShowArgs(ps)[i]) == ShowText(args[i])
    {
      ArgumentIsParameter(ps, i);
      ExecArgumentText(args[i]);
      ShowArgumentText(args[i]);
      assert ExecArgument(args[i])[0] == ExecArgs(ps)[i] && ShowArgument(args[i])[0] == ShowArgs(ps)[i];
    }
  }

  /** The names of the arguments leave the list in one piece each. */
  predicate Unsplit(args: seq<Request>) {
    forall i | 0 <= i < |args| :: !Splits(args[i].name + " ")
  }

  lemma SplitsAsTexts(items: seq<seq<Segment>>, args: seq<Request>)
    requires items != [] && |items| == |args|
    requires forall i | 0 <= i < |args| :: Splits(Render(items[i])) <==> Splits(args[i].name + " ")
    ensures SplitCommas(Render(Joined(items))) == Texts(items) <==> Unsplit(args)
  {
    SplitJoined(items);
    SplittingsExactly(items);
  }

  /** Split at its commas, the argument list of the executed call is `name => :name` for each argument of the
      procedure and that of the shown call `name => l_name`, in the same order, exactly when no name has a
      comma before a space or at its end. */
  lemma ArgumentLists(ps: seq<Request>)
    requires Arguments(ps) != []
    ensures SplitCommas(Render(Joined(ExecArgs(ps)))) == ExecTexts(Arguments(ps)) <==> Unsplit(Arguments(ps))
    ensures SplitCommas(Render(Joined(ShowArgs(ps)))) == ShowTexts(Arguments(ps)) <==> Unsplit(Arguments(ps))
  {
    var args := Arguments(ps);
    ItemTexts(ps);
    TextsOfItems(ExecArgs(ps), ShowArgs(ps), args);
    forall i | 0 <= i < |args|
      ensures Splits(Render(ExecArgs(ps)[i])) <==> Splits(args[i].name + " ")
      ensures Splits(Render(ShowArgs(ps)[i])) <==> Splits(args[i].name + " ")
    {
      TextsSplit(args[i]);
    }
    SplitsAsTexts(ExecArgs(ps), args);
    SplitsAsTexts(ShowArgs(ps), args);
  }
}
