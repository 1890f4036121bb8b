/** The text of the statement, line by line, as it is written for each parameter. */
module StatementLines {
  import opened StatementText
  import opened StatementParts
  import opened StatementReading
  import opened StatementBinds
  import opened ExtendedParameters
  import opened StatementWhole
  import Text

  /** The texts one behind the other. */
  function Glued(texts: seq<string>): string {
    if texts == [] then [] else Glued(texts[..|texts| - 1]) + texts[|texts| - 1]
  }

  function Numbered(n: nat, text: nat -> string): seq<string> {
    seq(n, i requires 0 <= i < n => text(i))
  }

  lemma GluedStep(n: nat, text: nat -> string)
    ensures Glued(Numbered(n + 1, text)) == Glued(Numbered(n, text)) + text(n)
  {
    assert Numbered(n + 1, text)[..n] == Numbered(n, text);
  }

  lemma SameGlued(n: nat, f: nat -> string, g: nat -> string)
    requires forall i: nat | i < n :: f(i) == g(i)
    ensures Numbered(n, f) == Numbered(n, g)
  {
  }

  lemma RenderThree(a: Segment, b: Segment, c: Segment)
    ensures Render([a, b, c]) == RenderOne(a) + RenderOne(b) + RenderOne(c)
  {
    RenderSingle(a);
    RenderSingle(b);
    RenderSingle(c);
    RenderConcat([a], [b]);
    RenderConcat([a] + [b], [c]);
    assert [a] + [b] + [c] == [a, b, c];
  }

  // ---------- The lines of one parameter ----------

  function DeclaredType(p: Request): string {
    var length := |RemoveCR(p.First())|;
    if p.code == 1 then p.typeName + "(" + Text.Decimal(if length == 0 then 1 else length) + ")"
    else if p.code in [2, 3, 4, 5, 11, 12, 13, 14, 15] then p.typeName
    else "varchar2(32767)"
  }

  /** `  l_name type;`; a string has the length of its value, but not 0. */
  function DeclareText(p: Request): string {
    "  " + ("l_" + p.name) + (" " + DeclaredType(p) + ";\n")
  }

  /** A value as it is shown: a string in quotes that are doubled inside, a date in quotes, others as they are. */
  function LiteralText(code: int, value: string): string {
    if code in [3, 13] then "to_date(" + ("'" + value + "'") + ")"
    else if code in [2, 4, 5, 12, 14, 15] then value
    else "'" + DoubleQuotes(value) + "'"
  }

  function AssignElement(p: Request): nat -> string {
    (i: nat) =>
      if i < |p.values| then
        "  l_" + p.name + ("(" + Text.Decimal(i + 1) + ")" + " := ")
        + LiteralText(p.code, TrimRightCRLF(p.values[i])) + ";\n"
      else ""
  }

  /** `  l_name := value;`, or `  l_name(i) := value;` for each value of a table. */
  function AssignText(p: Request): string {
    if p.code in [11, 12, 13, 14, 15] then Glued(Numbered(|p.values|, AssignElement(p)))
    else "  l_" + p.name + "" + " := " + LiteralText(p.code, ScalarValue(p)) + ";\n"
  }

  function StoreHead(proc: string, name: string): string {
    ("  " + proc + "(") + ("'" + Text.ToUpper(name) + "'") + ", "
  }

  function StoreElement(proc: string, name: string, what: string): nat -> string {
    (i: nat) => StoreHead(proc, name) + (what + ("(" + Text.Decimal(i + 1) + ")")) + ");\n"
  }

  /** `  proc('NAME', what);`, or `  proc('NAME', what(i));` for each value of a table; a boolean is written out. */
  function StoreText(p: Request, proc: string, what: string): string {
    if proc == "" then ""
    else if p.code in [11, 12, 13, 14, 15] then Glued(Numbered(|p.values|, StoreElement(proc, p.name, what)))
    else if p.code == 4 then StoreHead(proc, p.name) + ("'" + ScalarValue(p) + "'") + ");\n"
    else StoreHead(proc, p.name) + what + ");\n"
  }

  lemma KindCodes(code: int)
    ensures var k := KindOf(code);
      && (IsTable(k) <==> code in [11, 12, 13, 14, 15]) && (k.Boolean? <==> code == 4)
      && (k.Date? || k.DateTab? <==> code in [3, 13])
      && (k.Str? || k.StringTab? || k.Foreign? <==> code !in [2, 3, 4, 5, 12, 13, 14, 15])
      && (k.Foreign? <==> code !in [1, 2, 3, 4, 5, 11, 12, 13, 14, 15])
  {
  }

  lemma DeclaredTypeText(p: Request)
    ensures TypeText(p) == DeclaredType(p)
  {
  }

  lemma DeclareLineText(p: Request)
    ensures Render(DeclareLine(p.name, TypeText(p))) == DeclareText(p)
  {
    DeclaredTypeText(p);
    RenderThree(Plain("  "), Var(p.name), Plain(" " + TypeText(p) + ";\n"));
  }

  lemma ShownByKind(k: Kind, value: string)
    ensures k.Date? || k.DateTab? ==> Render(Shown(k, value)) == "to_date(" + ("'" + value + "'") + ")"
    ensures k.Str? || k.StringTab? || k.Foreign? ==> Render(Shown(k, value)) == "'" + DoubleQuotes(value) + "'"
    ensures !k.Date? && !k.DateTab? && !k.Str? && !k.StringTab? && !k.Foreign? ==> Render(Shown(k, value)) == value
  {
    RenderSingle(Quoted(DoubleQuotes(value)));
    RenderSingle(Raw(value));
    RenderThree(Plain("to_date("), Quoted(value), Plain(")"));
  }

  lemma ShownText(code: int, value: string)
    ensures Render(Shown(KindOf(code), value)) == LiteralText(code, value)
  {
    ShownByKind(KindOf(code), value);
    KindCodes(code);
  }

  lemma AssignLineText(name: string, index: string, code: int, value: string)
    ensures Render(AssignLine(name, index, Shown(KindOf(code), value))) ==
      "  l_" + name + (index + " := ") + LiteralText(code, value) + ";\n"
  {
    ShownText(code, value);
    var head := [Plain("  "), Var(name), Plain(index + " := ")];
    RenderThree(Plain("  "), Var(name), Plain(index + " := "));
    RenderSingle(Plain(";\n"));
    RenderConcat(head, Shown(KindOf(code), value));
    RenderConcat(head + Shown(KindOf(code), value), [Plain(";\n")]);
    assert "  " + ("l_" + name) == "  l_" + name;
  }

  lemma {:induction false} TableAssignsText(p: Request, n: nat)
    requires n <= |p.values|
    ensures Render(TableAssigns(p, n)) == Glued(Numbered(n, AssignElement(p)))
  {
    if n > 0 {
      var value := TrimRightCRLF(p.values[n - 1]);
      TableAssignsText(p, n - 1);
      AssignLineText(p.name, Index(n - 1), p.code, value);
      RenderConcat(TableAssigns(p, n - 1), AssignLine(p.name, Index(n - 1), Shown(p.Kind(), value)));
      GluedStep(n - 1, AssignElement(p));
    }
  }

  lemma AssignsText(p: Request)
    ensures Render(Assigns(p)) == AssignText(p)
  {
    KindCodes(p.code);
    if p.code in [11, 12, 13, 14, 15] {
      TableAssignsText(p, |p.values|);
    } else {
      AssignLineText(p.name, "", p.code, ScalarValue(p));
      assert "  l_" + p.name + ("" + " := ") == "  l_" + p.name + "" + " := ";
    }
  }

  lemma StoreLineText(proc: string, name: string, value: seq<Segment>)
    ensures Render(StoreLine(proc, name, value)) == StoreHead(proc, name) + Render(value) + ");\n"
  {
    var upper := Text.ToUpper(name);
    var head := [Plain("  " + proc + "("), Quoted(upper), Plain(", ")];
    RenderThree(Plain("  " + proc + "("), Quoted(upper), Plain(", "));
    RenderSingle(Plain(");\n"));
    RenderConcat(head, value);
    RenderConcat(head + value, [Plain(");\n")]);
  }

  lemma ElementText(what: Segment, i: nat)
    ensures Render([what, Plain(Index(i))]) == RenderOne(what) + ("(" + Text.Decimal(i + 1) + ")")
  {
    RenderSingle(what);
    RenderSingle(Plain(Index(i)));
    RenderConcat([what], [Plain(Index(i))]);
    assert [what] + [Plain(Index(i))] == [what, Plain(Index(i))];
  }

  lemma {:induction false} TableStoresText(p: Request, proc: string, what: Segment, n: nat)
    ensures Render(TableStores(p, proc, what, n)) == Glued(Numbered(n, StoreElement(proc, p.name, RenderOne(what))))
  {
    if n > 0 {
      var value := [what, Plain(Index(n - 1))];
      TableStoresText(p, proc, what, n - 1);
      StoreLineText(proc, p.name, value);
      ElementText(what, n - 1);
      RenderConcat(TableStores(p, proc, what, n - 1), StoreLine(proc, p.name, value));
      GluedStep(n - 1, StoreElement(proc, p.name, RenderOne(what)));
    }
  }

  lemma ScalarStoreText(p: Request, proc: string, what: Segment)
    ensures Render(StoreLine(proc, p.name, [what])) == StoreHead(proc, p.name) + RenderOne(what) + ");\n"
  {
    RenderSingle(what);
    StoreLineText(proc, p.name, [what]);
  }

  lemma StoresText(p: Request, proc: string, what: Segment)
    ensures Render(Stores(p, proc, what)) == StoreText(p, proc, RenderOne(what))
  {
    KindCodes(p.code);
    if proc != "" && p.code in [11, 12, 13, 14, 15] {
      TableStoresText(p, proc, what, |p.values|);
    } else if proc != "" {
      ScalarStoreText(p, proc, if p.code == 4 then Quoted(ScalarValue(p)) else what);
    }
  }

  // ---------- All parameters ----------

  /** The texts of all parameters, in the order prepared. */
  function GluedAll(ps: seq<Request>, text: Request -> string): string {
    if ps == [] then [] else GluedAll(ps[..|ps| - 1], text) + text(ps[|ps| - 1])
  }

  /** In the executed block the saved copies are passed, in the shown block the variables. */
  function CopyStored(proc: string): Request -> string {
    (p: Request) => StoreText(p, proc, ":" + (p.name + "#"))
  }

  function VariableStored(proc: string): Request -> string {
    (p: Request) => StoreText(p, proc, "l_" + p.name)
  }

  lemma {:induction false} DeclaresWritten(ps: seq<Request>)
    ensures Render(Declares(ps)) == GluedAll(ps, DeclareText)
  {
    if ps != [] {
      var n := |ps| - 1;
      DeclaresWritten(ps[..n]);
      DeclareLineText(ps[n]);
      RenderConcat(Declares(ps[..n]), DeclareLine(ps[n].name, TypeText(ps[n])));
    }
  }

  lemma {:induction false} AssignsWritten(ps: seq<Request>)
    ensures Render(AssignsOf(ps)) == GluedAll(ps, AssignText)
  {
    if ps != [] {
      var n := |ps| - 1;
      AssignsWritten(ps[..n]);
      AssignsText(ps[n]);
      RenderConcat(AssignsOf(ps[..n]), Assigns(ps[n]));
    }
  }

  lemma CopyStoredText(p: Request, proc: string)
    ensures Render(Stores(p, proc, CopyOf(p))) == CopyStored(proc)(p)
  {
    StoresText(p, proc, CopyOf(p));
  }

  lemma VariableStoredText(p: Request, proc: string)
    ensures Render(Stores(p, proc, Var(p.name))) == VariableStored(proc)(p)
  {
    StoresText(p, proc, Var(p.name));
  }

  lemma {:induction false} ExecStoresWritten(ps: seq<Request>, proc: string)
    ensures Render(ExecStores(ps, proc)) == GluedAll(ps, CopyStored(proc))
  {
    if ps != [] {
      var n := |ps| - 1;
      ExecStoresWritten(ps[..n], proc);
      CopyStoredText(ps[n], proc);
      RenderConcat(ExecStores(ps[..n], proc), Stores(ps[n], proc, CopyOf(ps[n])));
    }
  }

  lemma {:induction false} ShowStoresWritten(ps: seq<Request>, proc: string)
    ensures Render(ShowStores(ps, proc)) == GluedAll(ps, VariableStored(proc))
  {
    if ps != [] {
      var n := |ps| - 1;
      ShowStoresWritten(ps[..n], proc);
      VariableStoredText(ps[n], proc);
      RenderConcat(ShowStores(ps[..n], proc), Stores(ps[n], proc, Var(ps[n].name)));
    }
  }

  /** For every list of parameters, in every order, the lines that declare, assign and save them are these texts, one
      parameter behind the other: in the shown block, and the saving calls in both. */
  lemma LinesWritten(ps: seq<Request>, proc: string)
    ensures Render(Declares(ps)) == GluedAll(ps, DeclareText)
    ensures Render(AssignsOf(ps)) == GluedAll(ps, AssignText)
    ensures Render(ExecStores(ps, proc)) == GluedAll(ps, CopyStored(proc))
    ensures Render(ShowStores(ps, proc)) == GluedAll(ps, VariableStored(proc))
  {
    DeclaresWritten(ps);
    AssignsWritten(ps);
    ExecStoresWritten(ps, proc);
    ShowStoresWritten(ps, proc);
  }

  // ---------- The arguments ----------

  /** The texts of the parameters that the procedure has, with ", " between them. */
  function Listed(ps: seq<Request>, text: Request -> string): string {
    if ps == [] then []
    else
      var before, p := Listed(ps[..|ps| - 1], text), ps[|ps| - 1];
      if p.code !in [1, 2, 3, 4, 5, 11, 12, 13, 14, 15] then before
      else if before == [] then text(p)
      else before + ", " + text(p)
  }

  /** `name => :name`, compared with 'true' if it is a boolean. */
  function Passed(p: Request): string {
    (p.name + " => ") + (":" + p.name) + if p.code == 4 then " = 'true'" else ""
  }

  function PassedVariable(p: Request): string {
    (p.name + " => ") + ("l_" + p.name)
  }

  lemma ExecArgumentWritten(p: Request)
    requires !p.Kind().Foreign?
    ensures Render(ExecArgument(p)[0]) == Passed(p) != []
  {
    var a, b, c, d := Plain(p.name + " => "), Bind(p.name), Plain(" = "), Quoted("true");
    KindCodes(p.code);
    RenderSingle(a);
    RenderSingle(b);
    RenderConcat([a], [b]);
    assert [a] + [b] == [a, b];
    if p.code == 4 {
      RenderSingle(c);
      RenderSingle(d);
      RenderConcat([c], [d]);
      RenderConcat([a, b], [c] + [d]);
      assert ExecArgument(p)[0] == [a, b] + ([c] + [d]);
      assert " = " + "'true'" == " = 'true'" && RenderOne(d) == "'true'";
    } else {
      assert Passed(p) + "" == Passed(p);
    }
  }

  lemma ShowArgumentWritten(p: Request)
    requires !p.Kind().Foreign?
    ensures Render(ShowArgument(p)[0]) == PassedVariable(p) != []
  {
    var a, b := Plain(p.name + " => "), Var(p.name);
    RenderSingle(a);
    RenderSingle(b);
    RenderConcat([a], [b]);
    assert [a] + [b] == [a, b];
  }

  /** One item more in a list: behind a comma, unless the list has been empty. */
  lemma ItemListed(items: seq<seq<Segment>>, item: seq<Segment>, before: string, text: string)
    requires Render(Joined(items)) == before && Render(item) == text && (items == [] <==> before == [])
    ensures Render(Joined(items + [item])) == if before == [] then text else before + ", " + text
  {
    JoinedAppend(items, item);
    RenderSingle(Plain(", "));
    RenderConcat(Joined(items), [Plain(", ")]);
    RenderConcat(Joined(items) + [Plain(", ")], item);
  }

  lemma {:induction false} ExecArgsWritten(ps: seq<Request>)
    ensures Render(Joined(ExecArgs(ps))) == Listed(ps, Passed) && (ExecArgs(ps) == [] <==> Listed(ps, Passed) == [])
  {
    if ps != [] {
      var n := |ps| - 1;
      var p, items := ps[n], ExecArgs(ps[..n]);
      ExecArgsWritten(ps[..n]);
      KindCodes(p.code);
      if p.Kind().Foreign? {
        assert items + [] == items;
      } else {
        ExecArgumentWritten(p);
        ItemListed(items, ExecArgument(p)[0], Listed(ps[..n], Passed), Passed(p));
      }
    }
  }

  lemma {:induction false} ShowArgsWritten(ps: seq<Request>)
    ensures Render(Joined(ShowArgs(ps))) == Listed(ps, PassedVariable)
    ensures ShowArgs(ps) == [] <==> Listed(ps, PassedVariable) == []
  {
    if ps != [] {
      var n := |ps| - 1;
      var p, items := ps[n], ShowArgs(ps[..n]);
      ShowArgsWritten(ps[..n]);
      KindCodes(p.code);
      if p.Kind().Foreign? {
        assert items + [] == items;
      } else {
        ShowArgumentWritten(p);
        ItemListed(items, ShowArgument(p)[0], Listed(ps[..n], PassedVariable), PassedVariable(p));
      }
    }
  }

  // ---------- Run's own lines ----------

  function TakeOver(name: string): string { ("  l_" + name + " := ") + (":" + name) + ";\n" }

  lemma InitLineText(name: string)
    ensures Render(InitLine(name)) == TakeOver(name)
  {
    RenderThree(Plain("  l_" + name + " := "), Bind(name), Plain(";\n"));
  }

  function TakeOvers(names: seq<string>): string {
    if names == [] then [] else TakeOver(names[0]) + TakeOvers(names[1..])
  }

  lemma {:induction false} InitLinesText(names: seq<string>)
    ensures Render(InitLines(names)) == TakeOvers(names)
  {
    if names != [] {
      InitLinesText(names[1..]);
      InitLineText(names[0]);
      RenderConcat(InitLine(names[0]), InitLines(names[1..]));
    }
  }

  /** The set part begins by taking over run's seven inputs. */
  lemma InitText()
    ensures Render(Init()) == "\n" + TakeOvers(["num_params", "param_name", "param_val", "num_ext_params",
                                               "ext_param_name", "ext_param_val", "package_name"])
  {
    InitLinesText(INIT_NAMES);
    RenderSingle(Plain("\n"));
    RenderConcat([Plain("\n")], InitLines(INIT_NAMES));
  }

  function IndexedLine(target: string, i: nat, text: string): string {
    (target + ("(" + Text.Decimal(i + 1) + ")") + " := ") + ("'" + text + "'") + ";\n"
  }

  /** `target(i) := 'text';`, counted from one. */
  function IndexedText(target: string, texts: seq<string>): nat -> string {
    (i: nat) => if i < |texts| then IndexedLine(target, i, texts[i]) else ""
  }

  lemma ExtLineText(target: string, i: nat, text: string)
    ensures Render(ExtLine(target, i, text)) == IndexedLine(target, i, text)
  {
    RenderThree(Plain(target + Index(i) + " := "), Quoted(text), Plain(";\n"));
  }

  lemma LastLineText(target: string, texts: seq<string>)
    requires texts != []
    ensures var n := |texts| - 1;
      Render(Lines(target, texts)) == Render(Lines(target, texts[..n])) + IndexedText(target, texts)(n)
  {
    var n := |texts| - 1;
    ExtLineText(target, n, texts[n]);
    RenderConcat(Lines(target, texts[..n]), ExtLine(target, n, texts[n]));
  }

  lemma LastGlued(target: string, texts: seq<string>)
    requires texts != []
    ensures var n := |texts| - 1;
      Glued(Numbered(n + 1, IndexedText(target, texts))) ==
      Glued(Numbered(n, IndexedText(target, texts[..n]))) + IndexedText(target, texts)(n)
  {
    var n := |texts| - 1;
    SameGlued(n, IndexedText(target, texts[..n]), IndexedText(target, texts));
    GluedStep(n, IndexedText(target, texts));
  }

  lemma {:induction false} LinesText(target: string, texts: seq<string>)
    ensures Render(Lines(target, texts)) == Glued(Numbered(|texts|, IndexedText(target, texts)))
  {
    if texts != [] {
      LinesText(target, texts[..|texts| - 1]);
      LastLineText(target, texts);
      LastGlued(target, texts);
    }
  }

  /** How many extended parameters there are, their names in upper case, their values with quotes doubled. */
  lemma ExtText(names: seq<string>, values: seq<string>)
    ensures Render(ExtLines(names, values)) ==
      ("  l_num_ext_params" + " := " + Text.Decimal(|names|) + ";\n")
      + Glued(Numbered(|names|, IndexedText("  l_ext_param_name", Uppers(names))))
      + Glued(Numbered(|values|, IndexedText("  l_ext_param_val", Doubled(values))))
    ensures |Uppers(names)| == |names| && forall i | 0 <= i < |names| :: Uppers(names)[i] == Text.ToUpper(names[i])
    ensures |Doubled(values)| == |values|
    ensures forall i | 0 <= i < |values| :: Doubled(values)[i] == DoubleQuotes(values[i])
  {
    UppersAt(names);
    DoubledAt(values);
    LinesText(NAME_TARGET, Uppers(names));
    LinesText(VALUE_TARGET, Doubled(values));
    RenderSingle(CountLine(|names|)[0]);
    RenderParts(CountLine(|names|), NameLines(names), ValueLines(values));
  }

  lemma RenderParts(a: seq<Segment>, b: seq<Segment>, c: seq<Segment>)
    ensures Render(a + b + c) == Render(a) + Render(b) + Render(c)
  {
    RenderConcat(a, b);
    RenderConcat(a + b, c);
  }
}
