/**
 What the parameters of a request come to: for every list of parameters, in the order in which they
 were prepared, the pieces of the PL/SQL block that is executed, the pieces of the block that is shown,
 and the bind variables. A char stands for a byte of the source's strings, so that lengths are counted as
 the source counts them.
 */
module StatementParts {
  import opened StatementText
  import Text

  /** The kinds of parameter, by the type code of the procedure's argument (describe.go:225-236). Any
      other code stands for a parameter that the procedure does not have. */
  datatype Kind =
    | Str | Number | Date | Boolean | Integer
    | StringTab | NumberTab | DateTab | BooleanTab | IntegerTab
    | Foreign

  function KindOf(code: int): Kind {
    match code
    case 1 => Str case 2 => Number case 3 => Date case 4 => Boolean case 5 => Integer
    case 11 => StringTab case 12 => NumberTab case 13 => DateTab case 14 => BooleanTab case 15 => IntegerTab
    case _ => Foreign
  }

  predicate IsTable(k: Kind) {
    k.StringTab? || k.NumberTab? || k.DateTab? || k.BooleanTab? || k.IntegerTab?
  }

  /** A parameter to prepare. `saved` says whether its file could be saved to the database, which is true of
      one that is no file; `bound` and `stored` say whether Oracle creates its two variables. */
  datatype Request = Request(
    name: string, values: seq<string>, code: int, typeName: string, saved: bool, bound: bool, stored: bool)
  {
    function Kind(): Kind { KindOf(code) }
    function First(): string { if values == [] then [] else values[0] }
  }

  /** What a bind variable holds. Times are the texts handed to time.Parse; an output is a variable of run
      that the statement writes. */
  datatype BindValue =
    | Null
    | Text(text: string)
    | Table(texts: seq<string>)
    | Times(texts: seq<string>)
    | Count(count: int)
    | Output(name: string)

  const CR := '\r'
  const LF := '\n'

  function TrimRightCRLF(s: string): (r: string)
    ensures r <= s
  {
    if s != [] && (s[|s| - 1] == CR || s[|s| - 1] == LF) then TrimRightCRLF(s[..|s| - 1]) else s
  }

  function RemoveCR(s: string): string { Text.Without(s, CR) }

  /** The value of a parameter that is not a table. */
  function ScalarValue(p: Request): string {
    match p.Kind()
    case Str => RemoveCR(p.First())
    case Boolean => Text.ToLower(TrimRightCRLF(p.First()))
    case _ => TrimRightCRLF(p.First())
  }

  /** An element of a table, as it is bound. */
  function Element(k: Kind, v: string): string {
    match k
    case StringTab => RemoveCR(v)
    case NumberTab =>
      var w := RemoveCR(TrimRightCRLF(v));
      if w != [] && w[0] == ',' then "0" + w else w
    case _ => RemoveCR(TrimRightCRLF(v))
  }

  function Elements(k: Kind, values: seq<string>): seq<string> {
    if values == [] then [] else Elements(k, values[..|values| - 1]) + [Element(k, values[|values| - 1])]
  }

  function Trimmed(values: seq<string>): seq<string> {
    if values == [] then [] else Trimmed(values[..|values| - 1]) + [TrimRightCRLF(values[|values| - 1])]
  }

  // ---------- Lines ----------

  function DeclareLine(name: string, typeText: string): seq<Segment> {
    [Plain("  "), Var(name), Plain(" " + typeText + ";\n")]
  }

  function AssignLine(name: string, index: string, literal: seq<Segment>): seq<Segment> {
    [Plain("  "), Var(name), Plain(index + " := ")] + literal + [Plain(";\n")]
  }

  function StoreLine(proc: string, name: string, value: seq<Segment>): seq<Segment> {
    [Plain("  " + proc + "("), Quoted(Text.ToUpper(name)), Plain(", ")] + value + [Plain(");\n")]
  }

  /** `(i)`, counted from one. */
  function Index(i: nat): string { "(" + Text.Decimal(i + 1) + ")" }

  /** How a value is written in the text for display. Only strings have their quotes doubled. */
  function Shown(k: Kind, value: string): seq<Segment> {
    match k
    case Str => [Quoted(DoubleQuotes(value))]
    case StringTab => [Quoted(DoubleQuotes(value))]
    case Foreign => [Quoted(DoubleQuotes(value))]
    case Date => [Plain("to_date("), Quoted(value), Plain(")")]
    case DateTab => [Plain("to_date("), Quoted(value), Plain(")")]
    case _ => [Raw(value)]
  }

  function TypeText(p: Request): string {
    match p.Kind()
    case Str =>
      var n := |ScalarValue(p)|;
      p.typeName + "(" + Text.Decimal(if n == 0 then 1 else n) + ")"
    case Foreign => "varchar2(32767)"
    case _ => p.typeName
  }

  // ---------- The contribution of one parameter ----------

  function TableAssigns(p: Request, n: nat): seq<Segment>
    requires n <= |p.values|
  {
    if n == 0 then []
    else TableAssigns(p, n - 1) + AssignLine(p.name, Index(n - 1), Shown(p.Kind(), TrimRightCRLF(p.values[n - 1])))
  }

  function Assigns(p: Request): seq<Segment> {
    if IsTable(p.Kind()) then TableAssigns(p, |p.values|)
    else AssignLine(p.name, "", Shown(p.Kind(), ScalarValue(p)))
  }

  /** `name => :name`, if the procedure has the parameter. */
  function ExecArgument(p: Request): seq<seq<Segment>> {
    match p.Kind()
    case Foreign => []
    case Boolean => [[Plain(p.name + " => "), Bind(p.name), Plain(" = "), Quoted("true")]]
    case _ => [[Plain(p.name + " => "), Bind(p.name)]]
  }

  function ShowArgument(p: Request): seq<seq<Segment>> {
    if p.Kind().Foreign? then [] else [[Plain(p.name + " => "), Var(p.name)]]
  }

  function TableStores(p: Request, proc: string, what: Segment, n: nat): seq<Segment> {
    if n == 0 then []
    else TableStores(p, proc, what, n - 1) + StoreLine(proc, p.name, [what, Plain(Index(n - 1))])
  }

  /** The calls that save the parameter in the context; `what` is its bind variable or its `l_` variable. */
  function Stores(p: Request, proc: string, what: Segment): seq<Segment> {
    if proc == "" then []
    else if IsTable(p.Kind()) then TableStores(p, proc, what, |p.values|)
    else StoreLine(proc, p.name, if p.Kind().Boolean? then [Quoted(ScalarValue(p))] else [what])
  }

  function ArgumentValue(p: Request): BindValue {
    match p.Kind()
    case Number => if ScalarValue(p) == [] then Null else Text(ScalarValue(p))
    case DateTab => Times(Trimmed(p.values))
    case k => if IsTable(k) then Table(Elements(k, p.values)) else Text(ScalarValue(p))
  }

  function StoredValue(p: Request): BindValue {
    if IsTable(p.Kind()) then Table(Elements(p.Kind(), p.values)) else Text(ScalarValue(p))
  }

  function BindArgument(binds: map<string, BindValue>, p: Request): map<string, BindValue> {
    if p.Kind().Foreign? then binds else binds[p.name := ArgumentValue(p)]
  }

  function BindStored(binds: map<string, BindValue>, p: Request, proc: string): map<string, BindValue> {
    if proc == "" || p.Kind().Boolean? then binds else binds[p.name + "#" := StoredValue(p)]
  }

  // ---------- All parameters ----------

  // The pieces of the statement, in the order prepared. Arguments are kept apart; commas go between them.

  function Declares(ps: seq<Request>): seq<Segment> {
    if ps == [] then []
    else
      var p := ps[|ps| - 1];
      Declares(ps[..|ps| - 1]) + DeclareLine(p.name, TypeText(p))
  }

  function AssignsOf(ps: seq<Request>): seq<Segment> {
    if ps == [] then [] else AssignsOf(ps[..|ps| - 1]) + Assigns(ps[|ps| - 1])
  }

  function ExecArgs(ps: seq<Request>): seq<seq<Segment>> {
    if ps == [] then [] else ExecArgs(ps[..|ps| - 1]) + ExecArgument(ps[|ps| - 1])
  }

  function ShowArgs(ps: seq<Request>): seq<seq<Segment>> {
    if ps == [] then [] else ShowArgs(ps[..|ps| - 1]) + ShowArgument(ps[|ps| - 1])
  }

  function CopyOf(p: Request): Segment { Bind(p.name + "#") }

  function ExecStores(ps: seq<Request>, proc: string): seq<Segment> {
    if ps == [] then [] else ExecStores(ps[..|ps| - 1], proc) + Stores(ps[|ps| - 1], proc, CopyOf(ps[|ps| - 1]))
  }

  function ShowStores(ps: seq<Request>, proc: string): seq<Segment> {
    if ps == [] then [] else ShowStores(ps[..|ps| - 1], proc) + Stores(ps[|ps| - 1], proc, Var(ps[|ps| - 1].name))
  }

  /** The bind variables: a later parameter overwrites an earlier one of the same name. */
  function Binds(ps: seq<Request>, proc: string): map<string, BindValue> {
    if ps == [] then map[]
    else
      var p := ps[|ps| - 1];
      BindStored(BindArgument(Binds(ps[..|ps| - 1], proc), p), p, proc)
  }

  function Names(ps: seq<Request>): seq<string> {
    if ps == [] then [] else Names(ps[..|ps| - 1]) + [ps[|ps| - 1].name]
  }

  function Firsts(ps: seq<Request>): seq<string> {
    if ps == [] then [] else Firsts(ps[..|ps| - 1]) + [ps[|ps| - 1].First()]
  }

  /** The arguments with ", " between them. */
  function Joined(items: seq<seq<Segment>>): seq<Segment> {
    if items == [] then []
    else if |items| == 1 then items[0]
    else items[0] + [Plain(", ")] + Joined(items[1..])
  }

  lemma {:induction false} JoinedAppend(items: seq<seq<Segment>>, item: seq<Segment>)
    ensures Joined(items + [item]) == if items == [] then item else Joined(items) + [Plain(", ")] + item
  {
    if |items| > 1 {
      assert (items + [item])[1..] == items[1..] + [item];
      JoinedAppend(items[1..], item);
    }
  }

  // ---------- Placeholders and keys ----------

  lemma {:induction false} NamesOfTableStores(p: Request, proc: string, what: Segment, n: nat)
    ensures BindNames(TableStores(p, proc, what, n)) == if n > 0 && what.Bind? then {what.name} else {}
    ensures VarNames(TableStores(p, proc, what, n)) == if n > 0 && what.Var? then {what.name} else {}
  {
    if n > 0 {
      NamesOfTableStores(p, proc, what, n - 1);
      var line := [what, Plain(Index(n - 1))];
      NamesOfTwo(what, Plain(Index(n - 1)));
      NamesOfStoreLine(proc, p.name, line);
      NamesOfConcat(TableStores(p, proc, what, n - 1), StoreLine(proc, p.name, line));
    }
  }

  lemma NamesOfStoreLine(proc: string, name: string, value: seq<Segment>)
    ensures BindNames(StoreLine(proc, name, value)) == BindNames(value)
    ensures VarNames(StoreLine(proc, name, value)) == VarNames(value)
  {
    var a, b, c, d := Plain("  " + proc + "("), Quoted(Text.ToUpper(name)), Plain(", "), Plain(");\n");
    NamesOfThree(a, b, c);
    NamesOfOne(d);
    NamesOfConcat([a, b, c], value);
    NamesOfConcat([a, b, c] + value, [d]);
  }

  /** The saved copy of a parameter is referred to; or it is bound, but the table is empty. */
  predicate Referenced(p: Request, proc: string) {
    proc != "" && !p.Kind().Boolean? && (IsTable(p.Kind()) ==> p.values != [])
  }

  predicate Unreferenced(p: Request, proc: string) {
    proc != "" && IsTable(p.Kind()) && p.values == []
  }

  lemma NamesOfStores(p: Request, proc: string, what: Segment)
    ensures BindNames(Stores(p, proc, what)) == if Referenced(p, proc) && what.Bind? then {what.name} else {}
    ensures VarNames(Stores(p, proc, what)) == if Referenced(p, proc) && what.Var? then {what.name} else {}
  {
    if proc != "" && IsTable(p.Kind()) {
      NamesOfTableStores(p, proc, what, |p.values|);
    } else if proc != "" {
      var value := if p.Kind().Boolean? then [Quoted(ScalarValue(p))] else [what];
      NamesOfOne(value[0]);
      NamesOfStoreLine(proc, p.name, value);
    }
  }

  lemma {:induction false} NamesOfJoined(items: seq<seq<Segment>>, item: seq<Segment>)
    ensures BindNames(Joined(items + [item])) == BindNames(Joined(items)) + BindNames(item)
    ensures VarNames(Joined(items + [item])) == VarNames(Joined(items)) + VarNames(item)
  {
    JoinedAppend(items, item);
    if items != [] {
      NamesOfOne(Plain(", "));
      NamesOfConcat(Joined(items), [Plain(", ")]);
      NamesOfConcat(Joined(items) + [Plain(", ")], item);
    }
  }

  /** The placeholders of the statement that is executed. */
  function Written(ps: seq<Request>, proc: string): set<string> {
    BindNames(ExecStores(ps, proc)) + BindNames(Joined(ExecArgs(ps)))
  }

  function ArgumentName(p: Request): set<string> {
    if p.Kind().Foreign? then {} else {p.name}
  }

  lemma NamesOfExecArgument(items: seq<seq<Segment>>, p: Request)
    ensures BindNames(Joined(items + ExecArgument(p))) == BindNames(Joined(items)) + ArgumentName(p)
  {
    if p.Kind().Foreign? {
      assert items + [] == items;
    } else {
      NamesOfTwo(Plain(p.name + " => "), Bind(p.name));
      NamesOfTwo(Plain(" = "), Quoted("true"));
      NamesOfConcat([Plain(p.name + " => "), Bind(p.name)], [Plain(" = "), Quoted("true")]);
      assert p.Kind().Boolean? ==>
        ExecArgument(p)[0] == [Plain(p.name + " => "), Bind(p.name)] + [Plain(" = "), Quoted("true")];
      NamesOfJoined(items, ExecArgument(p)[0]);
    }
  }

  lemma NamesOfShowArgument(items: seq<seq<Segment>>, p: Request)
    ensures VarNames(Joined(items + ShowArgument(p))) == VarNames(Joined(items)) + ArgumentName(p)
  {
    if p.Kind().Foreign? {
      assert items + [] == items;
    } else {
      NamesOfTwo(Plain(p.name + " => "), Var(p.name));
      NamesOfJoined(items, ShowArgument(p)[0]);
    }
  }

  /** The copies that nothing refers to: those of empty tables. */
  function EmptyCopies(ps: seq<Request>, proc: string): set<string> {
    if ps == [] then {}
    else
      var p := ps[|ps| - 1];
      EmptyCopies(ps[..|ps| - 1], proc) + if Unreferenced(p, proc) then {p.name + "#"} else {}
  }

  lemma KeysStep(binds: map<string, BindValue>, p: Request, proc: string)
    ensures BindStored(BindArgument(binds, p), p, proc).Keys ==
      binds.Keys + ArgumentName(p) + if Referenced(p, proc) || Unreferenced(p, proc) then {p.name + "#"} else {}
  {
    assert BindArgument(binds, p).Keys == binds.Keys + ArgumentName(p);
  }

  /** For every list of parameters, in every order, the placeholders that were written and the names that
      were bound are the same, but for the saved copies of empty tables. */
  lemma {:induction false} PlaceholdersAreKeys(ps: seq<Request>, proc: string)
    ensures Written(ps, proc) + EmptyCopies(ps, proc) == Binds(ps, proc).Keys
  {
    if ps != [] {
      var n := |ps| - 1;
      PlaceholdersAreKeys(ps[..n], proc);
      NamesOfExecArgument(ExecArgs(ps[..n]), ps[n]);
      NamesOfStores(ps[n], proc, CopyOf(ps[n]));
      NamesOfConcat(ExecStores(ps[..n], proc), Stores(ps[n], proc, CopyOf(ps[n])));
      KeysStep(Binds(ps[..n], proc), ps[n], proc);
    }
  }

  lemma {:induction false} NoEmptyCopies(ps: seq<Request>, proc: string)
    requires forall p <- ps :: p.values != []
    ensures EmptyCopies(ps, proc) == {}
  {
    if ps != [] { NoEmptyCopies(ps[..|ps| - 1], proc); }
  }

  // ---------- Which value a placeholder carries ----------

  /** `p` binds a value to `key`. */
  predicate Binding(p: Request, proc: string, key: string) {
    (!p.Kind().Foreign? && key == p.name) || (proc != "" && !p.Kind().Boolean? && key == p.name + "#")
  }

  /** The value: that of its argument, or that of its saved copy. */
  function BoundTo(p: Request, proc: string, key: string): BindValue
    requires Binding(p, proc, key)
  {
    if key == p.name then ArgumentValue(p) else StoredValue(p)
  }

  /** The value that the parameters leave under a key is that of the last one that binds it. */
  lemma {:induction false} LastParameterCounts(ps: seq<Request>, proc: string, i: nat, key: string)
    requires i < |ps| && Binding(ps[i], proc, key) && forall j | i < j < |ps| :: !Binding(ps[j], proc, key)
    ensures key in Binds(ps, proc) && Binds(ps, proc)[key] == BoundTo(ps[i], proc, key)
  {
    var n := |ps| - 1;
    if i < n { LastParameterCounts(ps[..n], proc, i, key); }
  }

  /** Whatever is bound was bound by a parameter, of which there is a last one. */
  lemma {:induction false} LastToBind(ps: seq<Request>, proc: string, key: string) returns (i: nat)
    requires key in Binds(ps, proc)
    ensures i < |ps| && Binding(ps[i], proc, key) && forall j | i < j < |ps| :: !Binding(ps[j], proc, key)
  {
    var n := |ps| - 1;
    if Binding(ps[n], proc, key) {
      i := n;
    } else {
      i := LastToBind(ps[..n], proc, key);
    }
  }

  // ---------- Arguments ----------

  /** The parameters that the procedure has, in order. */
  function Arguments(ps: seq<Request>): seq<Request> {
    if ps == [] then []
    else Arguments(ps[..|ps| - 1]) + (if ps[|ps| - 1].Kind().Foreign? then [] else [ps[|ps| - 1]])
  }

  /** Both lists have one argument for each of `args`, in that order. */
  predicate SameOrder(execArgs: seq<seq<Segment>>, showArgs: seq<seq<Segment>>, args: seq<Request>) {
    && |execArgs| == |showArgs| == |args|
    && forall i | 0 <= i < |args| :: ExecArgument(args[i]) == [execArgs[i]] && ShowArgument(args[i]) == [showArgs[i]]
  }

  /** Both argument lists name the parameters of the procedure, all of them, in the order prepared. */
  lemma {:induction false} SameArguments(ps: seq<Request>)
    ensures SameOrder(ExecArgs(ps), ShowArgs(ps), Arguments(ps))
  {
    if ps != [] {
      SameArguments(ps[..|ps| - 1]);
    }
  }

  lemma {:induction false} ArgumentIsParameter(ps: seq<Request>, i: nat)
    requires i < |Arguments(ps)|
    ensures Arguments(ps)[i] in ps && !Arguments(ps)[i].Kind().Foreign?
  {
    var n := |ps| - 1;
    if i < |Arguments(ps[..n])| {
      ArgumentIsParameter(ps[..n], i);
    }
  }

  // ---------- Declarations ----------

  lemma {:induction false} NamesOfTableAssigns(p: Request, n: nat)
    requires n <= |p.values|
    ensures VarNames(TableAssigns(p, n)) <= {p.name}
  {
    if n > 0 {
      NamesOfTableAssigns(p, n - 1);
      var value := TrimRightCRLF(p.values[n - 1]);
      NamesOfAssignLine(p.name, Index(n - 1), p.Kind(), value);
      NamesOfConcat(TableAssigns(p, n - 1), AssignLine(p.name, Index(n - 1), Shown(p.Kind(), value)));
    }
  }

  lemma NamesOfAssignLine(name: string, index: string, k: Kind, value: string)
    ensures VarNames(AssignLine(name, index, Shown(k, value))) <= {name}
  {
    var a, b, c, d := Plain("  "), Var(name), Plain(index + " := "), Plain(";\n");
    NamesOfThree(a, b, c);
    NamesOfOne(d);
    NamesOfShown(k, value);
    NamesOfConcat([a, b, c], Shown(k, value));
    NamesOfConcat([a, b, c] + Shown(k, value), [d]);
  }

  lemma NamesOfShown(k: Kind, value: string)
    ensures VarNames(Shown(k, value)) == {}
  {
    NamesOfOne(Quoted(DoubleQuotes(value)));
    NamesOfOne(Raw(value));
    NamesOfThree(Plain("to_date("), Quoted(value), Plain(")"));
  }

  lemma NamesOfAssigns(p: Request)
    ensures VarNames(Assigns(p)) <= {p.name}
  {
    if IsTable(p.Kind()) {
      NamesOfTableAssigns(p, |p.values|);
    } else {
      NamesOfAssignLine(p.name, "", p.Kind(), ScalarValue(p));
    }
  }

  function NamesOf(ps: seq<Request>): set<string> {
    if ps == [] then {} else NamesOf(ps[..|ps| - 1]) + {ps[|ps| - 1].name}
  }

  /** The variables declared are those of the parameters, all of them. */
  lemma {:induction false} DeclaredAreParameters(ps: seq<Request>)
    ensures VarNames(Declares(ps)) == NamesOf(ps)
  {
    if ps != [] {
      var n := |ps| - 1;
      var p := ps[n];
      DeclaredAreParameters(ps[..n]);
      NamesOfConcat(Declares(ps[..n]), DeclareLine(p.name, TypeText(p)));
      NamesOfThree(Plain("  "), Var(p.name), Plain(" " + TypeText(p) + ";\n"));
    }
  }

  /** The variables that the shown block assigns, passes and saves. */
  function Used(ps: seq<Request>, proc: string): set<string> {
    VarNames(AssignsOf(ps)) + VarNames(Joined(ShowArgs(ps))) + VarNames(ShowStores(ps, proc))
  }

  lemma {:induction false} UsedAreParameters(ps: seq<Request>, proc: string)
    ensures Used(ps, proc) <= NamesOf(ps)
  {
    if ps != [] {
      var n := |ps| - 1;
      UsedAreParameters(ps[..n], proc);
      NamesOfAssigns(ps[n]);
      NamesOfConcat(AssignsOf(ps[..n]), Assigns(ps[n]));
      NamesOfShowArgument(ShowArgs(ps[..n]), ps[n]);
      NamesOfStores(ps[n], proc, Var(ps[n].name));
      NamesOfConcat(ShowStores(ps[..n], proc), Stores(ps[n], proc, Var(ps[n].name)));
    }
  }

  /** Every variable that the shown block assigns, passes or saves is declared in it. */
  lemma UsedIsDeclared(ps: seq<Request>, proc: string)
    ensures Used(ps, proc) <= VarNames(Declares(ps))
  {
    UsedAreParameters(ps, proc);
    DeclaredAreParameters(ps);
  }
}
