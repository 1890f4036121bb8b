/**
 The whole statement that is executed: the template of the interface in use with its holes filled. Its
 placeholders are the keys of the whole map, and when a scanner reads it as it was meant, exactly.
 */
module StatementWhole {
  import opened StatementText
  import opened StatementParts
  import opened StatementReading
  import opened ExtendedParameters
  import opened StatementBinds
  import Text

  /** The fixed text around the holes: up to the set part, from there to the calls that save parameters, from
      there to the arguments (it ends with the name of the procedure), and the rest. */
  datatype Template = Template(open: seq<Segment>, middle: seq<Segment>, call: seq<Segment>, close: seq<Segment>)

  /** A template can be read, and its placeholders are the variables that the statement writes. */
  predicate Fits(m: Template) {
    && Closed(m.open) && Closed(m.middle) && Closed(m.call) && Closed(m.close)
    && m.close != [] && Ends(RenderOne(m.close[0]))
    && TemplateNames(m) == OUTPUTS
  }

  function TemplateNames(m: Template): set<string> {
    BindNames(m.open) + BindNames(m.middle) + BindNames(m.call) + BindNames(m.close)
  }

  // ---------- The lines that take over run's own variables ----------

  const INIT_NAMES := ["num_params", "param_name", "param_val", "num_ext_params", "ext_param_name", "ext_param_val",
                       "package_name"]

  function InitLine(name: string): seq<Segment> {
    [Plain("  l_" + name + " := "), Bind(name), Plain(";\n")]
  }

  function InitLines(names: seq<string>): seq<Segment> {
    if names == [] then [] else InitLine(names[0]) + InitLines(names[1..])
  }

  function Init(): seq<Segment> { [Plain("\n")] + InitLines(INIT_NAMES) }

  function Placeholders(names: seq<string>): seq<Token> {
    if names == [] then [] else [Placeholder(names[0])] + Placeholders(names[1..])
  }

  lemma InitLineReads(name: string)
    requires Identifier(name)
    ensures Closed(InitLine(name)) && TokensOf(InitLine(name)) == [Placeholder(name)]
    ensures BindNames(InitLine(name)) == {name}
  {
    NameCharsAreQuiet(name);
    QuietIsInert(name);
    InertConcat("  l_", name);
    InertConcat("  l_" + name, " := ");
    ReadablePair(Bind(name), Plain(";\n"));
    ReadableCons(Plain("  l_" + name + " := "), [Bind(name), Plain(";\n")]);
    assert InitLine(name) == [Plain("  l_" + name + " := ")] + [Bind(name), Plain(";\n")];
    NamesOfThree(Plain("  l_" + name + " := "), Bind(name), Plain(";\n"));
  }

  lemma {:induction false} InitLinesRead(names: seq<string>)
    requires forall name <- names :: Identifier(name)
    ensures Closed(InitLines(names)) && TokensOf(InitLines(names)) == Placeholders(names)
    ensures BindNames(InitLines(names)) == set name | name in names
  {
    if names != [] {
      assert names == [names[0]] + names[1..];
      InitLineReads(names[0]);
      InitLinesRead(names[1..]);
      ClosedConcat(InitLine(names[0]), InitLines(names[1..]));
      NamesOfConcat(InitLine(names[0]), InitLines(names[1..]));
    }
  }

  lemma {:induction false} NameCharsByIndex(name: string)
    requires forall i | 0 <= i < |name| :: NameChar(name[i])
    ensures NameChars(name)
  {
    if name != [] { NameCharsByIndex(name[1..]); }
  }

  lemma InitNameChars(name: string)
    requires name in INIT_NAMES
    ensures name != [] && forall i | 0 <= i < |name| :: NameChar(name[i])
  {
  }

  lemma InitNames()
    ensures (set name | name in INIT_NAMES) == INPUTS + LATE
  {
  }

  lemma InitReads()
    ensures Closed(Init()) && TokensOf(Init()) == Placeholders(INIT_NAMES) && BindNames(Init()) == INPUTS + LATE
  {
    forall name <- INIT_NAMES ensures Identifier(name) {
      InitNameChars(name);
      NameCharsByIndex(name);
    }
    InitLinesRead(INIT_NAMES);
    InitNames();
    ReadableSingle(Plain("\n"));
    ClosedConcat([Plain("\n")], InitLines(INIT_NAMES));
    NamesOfOne(Plain("\n"));
    NamesOfConcat([Plain("\n")], InitLines(INIT_NAMES));
  }

  // ---------- The parts of the statement ----------

  function Ext(ps: seq<Request>): seq<Segment> { ExtLines(Names(ps), Firsts(ps)) }

  function ExtMeant(ps: seq<Request>): seq<Token> { Literals(Uppers(Names(ps))) + Literals(Firsts(ps)) }

  function Ending(m: Template, ps: seq<Request>): seq<Segment> {
    m.call + (Joined(ExecArgs(ps)) + m.close)
  }

  function EndingMeant(m: Template, ps: seq<Request>): seq<Token>
    requires Fits(m)
  {
    TokensOf(m.call) + (AllArgTokens(Arguments(ps)) + TokensOf(m.close))
  }

  function Rest(m: Template, ps: seq<Request>, proc: string): seq<Segment> {
    m.middle + (ExecStores(ps, proc) + Ending(m, ps))
  }

  function RestMeant(m: Template, ps: seq<Request>, proc: string): seq<Token>
    requires Fits(m)
  {
    TokensOf(m.middle) + (AllStoreTokens(ps, proc) + EndingMeant(m, ps))
  }

  /** The template with its holes filled. */
  function Whole(m: Template, ps: seq<Request>, proc: string): seq<Segment> {
    m.open + (Init() + (Ext(ps) + Rest(m, ps, proc)))
  }

  /** What it is meant to say. */
  function Meant(m: Template, ps: seq<Request>, proc: string): seq<Token>
    requires Fits(m)
  {
    TokensOf(m.open) + (Placeholders(INIT_NAMES) + (ExtMeant(ps) + RestMeant(m, ps, proc)))
  }

  /** All parts can be read: the calls and the arguments, and the names that are quoted without doubling. */
  predicate WholeReads(ps: seq<Request>, proc: string) {
    Reads(ps, proc) && forall p <- ps :: QUOTE !in p.name
  }

  lemma {:induction false} NamesIn(ps: seq<Request>, name: string)
    ensures name in Names(ps) <==> exists p <- ps :: p.name == name
  {
    if ps != [] {
      var n := |ps| - 1;
      NamesIn(ps[..n], name);
      assert ps == ps[..n] + [ps[n]];
    }
  }

  lemma ExtReads(ps: seq<Request>)
    requires forall p <- ps :: QUOTE !in p.name
    ensures Closed(Ext(ps)) && TokensOf(Ext(ps)) == ExtMeant(ps)
  {
    forall name <- Names(ps) ensures QUOTE !in name { NamesIn(ps, name); }
    GoodTokens(Names(ps), Firsts(ps));
  }

  lemma LastOfBoth(items: seq<Segment>, close: seq<Segment>)
    requires close != []
    ensures (items + close)[|items + close| - 1] == close[|close| - 1]
  {
  }

  lemma CloseReads(items: seq<Segment>, meant: seq<Token>, close: seq<Segment>)
    requires Readable(items) && TokensOf(items) == meant && Closed(close) && close != [] && Ends(RenderOne(close[0]))
    ensures Closed(items + close) && TokensOf(items + close) == meant + TokensOf(close)
  {
    ReadableConcat(items, close);
    LastOfBoth(items, close);
  }

  lemma EndingReads(m: Template, ps: seq<Request>)
    requires Fits(m) && forall p <- Arguments(ps) :: Identifier(p.name)
    ensures Closed(Ending(m, ps)) && TokensOf(Ending(m, ps)) == EndingMeant(m, ps)
  {
    ExecArgsRead(ps);
    CloseReads(Joined(ExecArgs(ps)), AllArgTokens(Arguments(ps)), m.close);
    ClosedConcat(m.call, Joined(ExecArgs(ps)) + m.close);
  }

  lemma RestReads(m: Template, ps: seq<Request>, proc: string)
    requires Fits(m) && Quiet(proc) && Reads(ps, proc)
    ensures Closed(Rest(m, ps, proc)) && TokensOf(Rest(m, ps, proc)) == RestMeant(m, ps, proc)
  {
    EndingReads(m, ps);
    ExecStoreReads(ps, proc);
    ClosedConcat(ExecStores(ps, proc), Ending(m, ps));
    ClosedConcat(m.middle, ExecStores(ps, proc) + Ending(m, ps));
  }

  lemma WholeIsRead(m: Template, ps: seq<Request>, proc: string)
    requires Fits(m) && Quiet(proc) && WholeReads(ps, proc)
    ensures Closed(Whole(m, ps, proc)) && TokensOf(Whole(m, ps, proc)) == Meant(m, ps, proc)
  {
    RestReads(m, ps, proc);
    ExtReads(ps);
    InitReads();
    ClosedConcat(Ext(ps), Rest(m, ps, proc));
    ClosedConcat(Init(), Ext(ps) + Rest(m, ps, proc));
    ClosedConcat(m.open, Init() + (Ext(ps) + Rest(m, ps, proc)));
  }

  // ---------- What cannot be read ----------

  lemma SpoiltBehind(gs: seq<Segment>, rest: seq<Segment>, seen: seq<Token>, meant: seq<Token>)
    requires Closed(gs) && TokensOf(gs) == seen && Misread(Render(rest), meant)
    ensures Misread(Render(gs + rest), seen + meant)
  {
    RenderConcat(gs, rest);
    MisreadBehind(gs, Render(rest), meant);
  }

  lemma SpoiltHere(gs: seq<Segment>, rest: seq<Segment>, meant: seq<Token>, more: seq<Token>)
    requires Misread(Render(gs) + Render(rest), meant)
    ensures Misread(Render(gs + rest), meant + more)
  {
    RenderConcat(gs, rest);
    MisreadBefore(Render(gs + rest), meant, more);
  }

  lemma SpoiltBehindInit(m: Template, rest: seq<Segment>, meant: seq<Token>)
    requires Fits(m) && Misread(Render(rest), meant)
    ensures Misread(Render(m.open + (Init() + rest)), TokensOf(m.open) + (Placeholders(INIT_NAMES) + meant))
  {
    InitReads();
    SpoiltBehind(Init(), rest, Placeholders(INIT_NAMES), meant);
    SpoiltBehind(m.open, Init() + rest, TokensOf(m.open), Placeholders(INIT_NAMES) + meant);
  }

  lemma NameMisread(m: Template, ps: seq<Request>, proc: string)
    requires Fits(m) && exists p <- ps :: QUOTE in p.name
    ensures Misread(Render(Whole(m, ps, proc)), Meant(m, ps, proc))
  {
    var p :| p in ps && QUOTE in p.name;
    NamesIn(ps, p.name);
    BadTokens(Names(ps), Firsts(ps), Render(Rest(m, ps, proc)));
    SpoiltHere(Ext(ps), Rest(m, ps, proc), ExtMeant(ps), RestMeant(m, ps, proc));
    SpoiltBehindInit(m, Ext(ps) + Rest(m, ps, proc), ExtMeant(ps) + RestMeant(m, ps, proc));
  }

  lemma StoreMisread(m: Template, ps: seq<Request>, proc: string, i: nat)
    requires Fits(m) && Quiet(proc) && (forall p <- ps :: QUOTE !in p.name)
    requires i < |ps| && ps[i].Kind().Boolean? && !StoreReads(ps[i], proc) && forall p <- ps[..i] :: StoreReads(p, proc)
    ensures Misread(Render(Whole(m, ps, proc)), Meant(m, ps, proc))
  {
    var stores, ending := ExecStores(ps, proc), Ending(m, ps);
    var storesMeant, endingMeant := AllStoreTokens(ps, proc), EndingMeant(m, ps);
    StoresMisread(ps, proc, i, Render(ending));
    SpoiltHere(stores, ending, storesMeant, endingMeant);
    SpoiltBehind(m.middle, stores + ending, TokensOf(m.middle), storesMeant + endingMeant);
    ExtReads(ps);
    SpoiltBehind(Ext(ps), Rest(m, ps, proc), ExtMeant(ps), RestMeant(m, ps, proc));
    SpoiltBehindInit(m, Ext(ps) + Rest(m, ps, proc), ExtMeant(ps) + RestMeant(m, ps, proc));
  }

  /** A placeholder that is no identifier is not found. */
  lemma NotFound(text: string, meant: seq<Token>, name: string)
    requires Placeholder(name) in meant && !Identifier(name)
    ensures Scan(text) != meant
  {
    if Placeholder(name) in Scan(text) { PlaceholdersAreIdentifiers(text, name); }
  }

  lemma PartsAreMeant(m: Template, ps: seq<Request>, proc: string, t: Token)
    requires Fits(m) && (t in AllStoreTokens(ps, proc) || t in AllArgTokens(Arguments(ps)))
    ensures t in Meant(m, ps, proc)
  {
    assert t in EndingMeant(m, ps) || t in AllStoreTokens(ps, proc);
    assert t in RestMeant(m, ps, proc);
  }

  lemma CallMisread(m: Template, ps: seq<Request>, proc: string)
    requires Fits(m) && Quiet(proc) && (forall p <- ps :: QUOTE !in p.name) && exists p <- ps :: !StoreReads(p, proc)
    ensures Scan(Render(Whole(m, ps, proc))) != Meant(m, ps, proc)
  {
    var i := FirstThatFails(ps, proc);
    if ps[i].Kind().Boolean? {
      StoreMisread(m, ps, proc, i);
    } else {
      CopyIsMeant(ps, proc, i);
      CopyIsIdentifier(ps[i].name);
      PartsAreMeant(m, ps, proc, Placeholder(ps[i].name + "#"));
      NotFound(Render(Whole(m, ps, proc)), Meant(m, ps, proc), ps[i].name + "#");
    }
  }

  lemma ArgumentMisread(m: Template, ps: seq<Request>, proc: string)
    requires Fits(m) && exists p <- Arguments(ps) :: !Identifier(p.name)
    ensures Scan(Render(Whole(m, ps, proc))) != Meant(m, ps, proc)
  {
    var i: nat :| i < |Arguments(ps)| && !Identifier(Arguments(ps)[i].name);
    ArgumentIsMeant(Arguments(ps), i);
    PartsAreMeant(m, ps, proc, Placeholder(Arguments(ps)[i].name));
    NotFound(Render(Whole(m, ps, proc)), Meant(m, ps, proc), Arguments(ps)[i].name);
  }

  /** A scanner reads the whole statement as it was meant exactly when names consist of the characters of
      identifiers wherever they stand in a placeholder, and neither names nor booleans have quotes. */
  lemma WholeReadExactly(m: Template, ps: seq<Request>, proc: string)
    requires Fits(m) && Quiet(proc)
    ensures Scan(Render(Whole(m, ps, proc))) == Meant(m, ps, proc) <==> WholeReads(ps, proc)
  {
    if WholeReads(ps, proc) {
      WholeIsRead(m, ps, proc);
      ScanOfRender(Whole(m, ps, proc));
    } else if exists p <- Arguments(ps) :: !Identifier(p.name) {
      ArgumentMisread(m, ps, proc);
    } else if exists p <- ps :: QUOTE in p.name {
      NameMisread(m, ps, proc);
    } else {
      CallMisread(m, ps, proc);
    }
  }

  // ---------- Placeholders and keys ----------

  lemma {:induction false} NamesOfLines(target: string, texts: seq<string>)
    ensures BindNames(Lines(target, texts)) == {}
  {
    if texts != [] {
      var n := |texts| - 1;
      NamesOfLines(target, texts[..n]);
      NamesOfThree(Plain(target + Index(n) + " := "), Quoted(texts[n]), Plain(";\n"));
      NamesOfConcat(Lines(target, texts[..n]), ExtLine(target, n, texts[n]));
    }
  }

  lemma NamesOfExtLines(names: seq<string>, values: seq<string>)
    ensures BindNames(ExtLines(names, values)) == {}
  {
    NamesOfOne(CountLine(|names|)[0]);
    NamesOfLines(NAME_TARGET, Uppers(names));
    NamesOfLines(VALUE_TARGET, Doubled(values));
    NamesOfConcat(CountLine(|names|), NameLines(names));
    NamesOfConcat(CountLine(|names|) + NameLines(names), ValueLines(values));
  }

  lemma NamesOfEight(a: seq<Segment>, b: seq<Segment>, c: seq<Segment>, d: seq<Segment>, e: seq<Segment>,
                     f: seq<Segment>, g: seq<Segment>, h: seq<Segment>)
    ensures BindNames(a + (b + (c + (d + (e + (f + (g + h))))))) ==
      BindNames(a) + BindNames(b) + BindNames(c) + BindNames(d)
      + BindNames(e) + BindNames(f) + BindNames(g) + BindNames(h)
  {
    NamesOfConcat(g, h);
    NamesOfConcat(f, g + h);
    NamesOfConcat(e, f + (g + h));
    NamesOfConcat(d, e + (f + (g + h)));
    NamesOfConcat(c, d + (e + (f + (g + h))));
    NamesOfConcat(b, c + (d + (e + (f + (g + h)))));
    NamesOfConcat(a, b + (c + (d + (e + (f + (g + h))))));
  }

  lemma NamesOfParts(m: Template, ps: seq<Request>, proc: string)
    ensures BindNames(Whole(m, ps, proc)) == TemplateNames(m) + BindNames(Init()) + Written(ps, proc)
  {
    NamesOfEight(m.open, Init(), Ext(ps), m.middle, ExecStores(ps, proc), m.call, Joined(ExecArgs(ps)), m.close);
    NamesOfExtLines(Names(ps), Firsts(ps));
  }

  lemma KeysOfAll(own: map<string, BindValue>, ps: seq<Request>, proc: string, late: map<string, BindValue>)
    ensures AllBinds(own, ps, proc, late).Keys == own.Keys + Written(ps, proc) + EmptyCopies(ps, proc) + late.Keys
  {
    PlaceholdersAreKeys(ps, proc);
  }

  /** The placeholders of the whole statement and the keys of the whole map are the same, but for the saved
      copies of empty tables. */
  lemma WholePlaceholders(m: Template, env: seq<Variable>, ps: seq<Request>, proc: string, package: string)
    requires Fits(m)
    ensures BindNames(Whole(m, ps, proc)) + EmptyCopies(ps, proc) ==
      AllBinds(OwnBinds(env), ps, proc, LateBinds(ps, package)).Keys
  {
    NamesOfParts(m, ps, proc);
    InitReads();
    KeysOfAll(OwnBinds(env), ps, proc, LateBinds(ps, package));
  }

  /** If the statement is read as it was meant, those a scanner finds in it are these. */
  lemma WholeFound(m: Template, env: seq<Variable>, ps: seq<Request>, proc: string, package: string)
    requires Fits(m) && Quiet(proc) && Scan(Render(Whole(m, ps, proc))) == Meant(m, ps, proc)
    ensures Found(Render(Whole(m, ps, proc))) + EmptyCopies(ps, proc) ==
      AllBinds(OwnBinds(env), ps, proc, LateBinds(ps, package)).Keys
  {
    WholeReadExactly(m, ps, proc);
    WholeIsRead(m, ps, proc);
    FoundIsWritten(Whole(m, ps, proc));
    WholePlaceholders(m, env, ps, proc, package);
  }
}
