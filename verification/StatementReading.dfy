/**
 The text of the statement, read back: when a scanner of literals and placeholders sees in it exactly what
 the builder meant.
 */
module StatementReading {
  import opened Options
  import opened StatementText
  import opened StatementParts
  import Text

  /** Text that a scanner passes over, whatever surrounds it. */
  predicate Quiet(t: string) {
    t == [] || (t[0] != QUOTE && t[0] != ':' && Quiet(t[1..]))
  }

  /** Readable text that ends neither in a name nor in a literal. */
  predicate Closed(gs: seq<Segment>) {
    Readable(gs) && (gs != [] ==> gs[|gs| - 1].Plain?)
  }

  /** At position `k` the scanner sees something else than was meant. */
  predicate Differs(seen: seq<Token>, meant: seq<Token>, k: nat) {
    k < |seen| && k < |meant| && seen[k] != meant[k]
  }

  lemma {:induction false} QuietIsInert(t: string)
    requires Quiet(t)
    ensures Inert(t) && QUOTE !in t
  {
    if t != [] {
      QuietIsInert(t[1..]);
      assert t == [t[0]] + t[1..];
    }
  }

  lemma {:induction false} QuietByIndex(t: string)
    requires forall i | 0 <= i < |t| :: t[i] != QUOTE && t[i] != ':'
    ensures Quiet(t)
  {
    if t != [] { QuietByIndex(t[1..]); }
  }

  lemma {:induction false} QuietConcat(a: string, b: string)
    requires Quiet(a) && Quiet(b)
    ensures Quiet(a + b)
  {
    if a == [] {
      assert a + b == b;
    } else {
      assert (a + b)[1..] == a[1..] + b;
      QuietConcat(a[1..], b);
    }
  }

  lemma {:induction false} NameCharsAreQuiet(n: string)
    requires NameChars(n)
    ensures Quiet(n) && QUOTE !in n
  {
    if n != [] {
      NameCharsAreQuiet(n[1..]);
      assert n == [n[0]] + n[1..];
    }
  }

  lemma {:induction false} CopyIsIdentifier(n: string)
    ensures Identifier(n + "#") <==> NameChars(n)
  {
    if n == [] {
      assert n + "#" == "#" && "#"[1..] == [];
    } else {
      assert (n + "#")[1..] == n[1..] + "#";
      CopyIsIdentifier(n[1..]);
    }
  }

  lemma UpperKeepsQuotes(name: string)
    ensures QUOTE in name <==> QUOTE in Text.ToUpper(name)
  {
    Text.ToUpperAt(name);
    forall i | 0 <= i < |name| ensures name[i] == QUOTE <==> Text.ToUpper(name)[i] == QUOTE {}
  }

  lemma ClosedConcat(a: seq<Segment>, b: seq<Segment>)
    requires Closed(a) && Closed(b)
    ensures Closed(a + b) && TokensOf(a + b) == TokensOf(a) + TokensOf(b)
  {
    ReadableConcat(a, b);
  }

  lemma ReadableSingle(g: Segment)
    requires Legible(g)
    ensures Readable([g]) && TokensOf([g]) == TokenOf(g)
  {
    assert [g][1..] == [] && TokenOf(g) + [] == TokenOf(g);
  }

  lemma ReadablePair(a: Segment, b: Segment)
    requires Legible(a) && Legible(b) && (a.Plain? || Ends(RenderOne(b)))
    ensures Readable([a, b]) && TokensOf([a, b]) == TokenOf(a) + TokenOf(b)
  {
    ReadableSingle(a);
    ReadableSingle(b);
    ReadableConcat([a], [b]);
    assert [a] + [b] == [a, b];
  }

  lemma RenderSingle(g: Segment)
    ensures Render([g]) == RenderOne(g)
  {
    assert [g][1..] == [] && RenderOne(g) + [] == RenderOne(g);
  }

  lemma RenderPair(t: string, g: Segment)
    ensures Render([Plain(t), g]) == t + RenderOne(g)
  {
    RenderSingle(Plain(t));
    RenderSingle(g);
    RenderConcat([Plain(t)], [g]);
    assert [Plain(t)] + [g] == [Plain(t), g];
  }

  // ---------- Blocks ----------

  function Flat(blocks: seq<seq<Segment>>): seq<Segment> {
    if blocks == [] then [] else blocks[0] + Flat(blocks[1..])
  }

  function FlatTokens(tokens: seq<seq<Token>>): seq<Token> {
    if tokens == [] then [] else tokens[0] + FlatTokens(tokens[1..])
  }

  lemma {:induction false} FlatAppend(blocks: seq<seq<Segment>>, block: seq<Segment>)
    ensures Flat(blocks + [block]) == Flat(blocks) + block
  {
    if blocks == [] {
      assert [block][1..] == [];
    } else {
      assert (blocks + [block])[1..] == blocks[1..] + [block];
      FlatAppend(blocks[1..], block);
    }
  }

  lemma {:induction false} FlatTokensAppend(tokens: seq<seq<Token>>, more: seq<Token>)
    ensures FlatTokens(tokens + [more]) == FlatTokens(tokens) + more
  {
    if tokens == [] {
      assert [more][1..] == [];
    } else {
      assert (tokens + [more])[1..] == tokens[1..] + [more];
      FlatTokensAppend(tokens[1..], more);
    }
  }

  /** Blocks that can be read one by one can be read in a row. */
  lemma {:induction false} BlocksRead(blocks: seq<seq<Segment>>, meant: seq<seq<Token>>)
    requires |blocks| == |meant|
    requires forall j | 0 <= j < |blocks| :: Closed(blocks[j]) && TokensOf(blocks[j]) == meant[j]
    ensures Closed(Flat(blocks)) && TokensOf(Flat(blocks)) == FlatTokens(meant)
  {
    if blocks != [] {
      BlocksRead(blocks[1..], meant[1..]);
      ClosedConcat(blocks[0], Flat(blocks[1..]));
    }
  }

  /** The first block that is misread, whatever follows it, spoils the row. */
  lemma {:induction false} BlockSpoils(blocks: seq<seq<Segment>>, meant: seq<seq<Token>>, i: nat, tail: string)
    requires |blocks| == |meant| && i < |blocks|
    requires forall j | 0 <= j < i :: Closed(blocks[j]) && TokensOf(blocks[j]) == meant[j]
    requires forall rest :: Misread(Render(blocks[i]) + rest, meant[i])
    ensures Misread(Render(Flat(blocks)) + tail, FlatTokens(meant))
  {
    var rest := Render(Flat(blocks[1..])) + tail;
    RenderConcat(blocks[0], Flat(blocks[1..]));
    Reassociate(Render(blocks[0]), Render(Flat(blocks[1..])), tail);
    if i == 0 {
      MisreadBefore(Render(blocks[0]) + rest, meant[0], FlatTokens(meant[1..]));
    } else {
      BlockSpoils(blocks[1..], meant[1..], i - 1, tail);
      MisreadBehind(blocks[0], rest, FlatTokens(meant[1..]));
    }
  }

  /** Somewhere the scanner sees something else than was meant. */
  ghost predicate Misread(text: string, meant: seq<Token>) {
    exists k: nat :: Differs(Scan(text), meant, k)
  }

  lemma MisreadBehind(gs: seq<Segment>, text: string, meant: seq<Token>)
    requires Closed(gs) && Misread(text, meant)
    ensures Misread(Render(gs) + text, TokensOf(gs) + meant)
  {
    var k: nat :| Differs(Scan(text), meant, k);
    ScanPrefix(gs, text);
    assert Differs(Scan(Render(gs) + text), TokensOf(gs) + meant, |TokensOf(gs)| + k);
  }

  lemma MisreadBefore(text: string, meant: seq<Token>, more: seq<Token>)
    requires Misread(text, meant)
    ensures Misread(text, meant + more)
  {
    var k: nat :| Differs(Scan(text), meant, k);
    assert Differs(Scan(text), meant + more, k);
  }

  // ---------- The calls that save parameters ----------

  lemma HeadIsInert(proc: string)
    requires Quiet(proc)
    ensures Inert("  " + proc + "(")
  {
    QuietIsInert(proc);
    InertConcat("  ", proc);
    InertConcat("  " + proc, "(");
  }

  lemma StoreHeadReads(proc: string, name: string)
    requires Quiet(proc) && QUOTE !in name
    ensures var head := [Plain("  " + proc + "("), Quoted(Text.ToUpper(name)), Plain(", ")];
      Closed(head) && TokensOf(head) == [Literal(Text.ToUpper(name))]
  {
    var head, upper := Plain("  " + proc + "("), Quoted(Text.ToUpper(name));
    UpperKeepsQuotes(name);
    MeaningOfDoubled(upper.text);
    HeadIsInert(proc);
    ReadablePair(head, upper);
    ReadableSingle(Plain(", "));
    assert Ends(RenderOne([Plain(", ")][0]));
    ReadableConcat([head, upper], [Plain(", ")]);
    assert [head, upper] + [Plain(", ")] == [head, upper, Plain(", ")];
  }

  lemma StoreLineReads(proc: string, name: string, value: seq<Segment>)
    requires Quiet(proc) && QUOTE !in name && Readable(value)
    ensures Closed(StoreLine(proc, name, value))
    ensures TokensOf(StoreLine(proc, name, value)) == [Literal(Text.ToUpper(name))] + TokensOf(value)
  {
    var head := [Plain("  " + proc + "("), Quoted(Text.ToUpper(name)), Plain(", ")];
    StoreHeadReads(proc, name);
    ReadableConcat(head, value);
    ReadableSingle(Plain(");\n"));
    ReadableConcat(head + value, [Plain(");\n")]);
  }

  lemma {:induction false} DecimalIsQuiet(n: nat)
    ensures Quiet(Text.Decimal(n))
  {
    if n >= 10 {
      DecimalIsQuiet(n / 10);
      QuietConcat(Text.Decimal(n / 10), [Text.Digit(n % 10)]);
    }
  }

  lemma IndexIsInert(i: nat)
    ensures Inert(Index(i))
  {
    DecimalIsQuiet(i + 1);
    QuietIsInert(Text.Decimal(i + 1));
    InertConcat("(", Text.Decimal(i + 1));
    InertConcat("(" + Text.Decimal(i + 1), ")");
  }

  /** What the calls for one table are meant to say, up to element `n`. */
  function TableTokens(p: Request, n: nat): seq<Token> {
    if n == 0 then [] else TableTokens(p, n - 1) + ([Literal(Text.ToUpper(p.name))] + [Placeholder(p.name + "#")])
  }

  /** What the calls that save `p` are meant to say: its name, and its saved copy or its boolean value. */
  function StoreTokens(p: Request, proc: string): seq<Token> {
    if proc == "" then []
    else if IsTable(p.Kind()) then TableTokens(p, |p.values|)
    else
      [Literal(Text.ToUpper(p.name))]
      + [if p.Kind().Boolean? then Literal(ScalarValue(p)) else Placeholder(p.name + "#")]
  }

  function StoreMeanings(ps: seq<Request>, proc: string): seq<seq<Token>> {
    if ps == [] then [] else StoreMeanings(ps[..|ps| - 1], proc) + [StoreTokens(ps[|ps| - 1], proc)]
  }

  function StoreBlocks(ps: seq<Request>, proc: string): seq<seq<Segment>> {
    if ps == [] then [] else StoreBlocks(ps[..|ps| - 1], proc) + [Stores(ps[|ps| - 1], proc, CopyOf(ps[|ps| - 1]))]
  }

  function AllStoreTokens(ps: seq<Request>, proc: string): seq<Token> {
    FlatTokens(StoreMeanings(ps, proc))
  }

  lemma {:induction false} StoresInBlocks(ps: seq<Request>, proc: string)
    ensures ExecStores(ps, proc) == Flat(StoreBlocks(ps, proc))
  {
    if ps != [] {
      var n := |ps| - 1;
      StoresInBlocks(ps[..n], proc);
      FlatAppend(StoreBlocks(ps[..n], proc), Stores(ps[n], proc, CopyOf(ps[n])));
    }
  }

  lemma {:induction false} BlocksInNumber(ps: seq<Request>, proc: string)
    ensures |StoreBlocks(ps, proc)| == |StoreMeanings(ps, proc)| == |ps|
  {
    if ps != [] { BlocksInNumber(ps[..|ps| - 1], proc); }
  }

  lemma {:induction false} BlockAt(ps: seq<Request>, proc: string, i: nat)
    requires i < |ps|
    ensures |StoreBlocks(ps, proc)| == |ps| && StoreBlocks(ps, proc)[i] == Stores(ps[i], proc, CopyOf(ps[i]))
  {
    var n := |ps| - 1;
    BlocksInNumber(ps, proc);
    BlocksInNumber(ps[..n], proc);
    if i < n { BlockAt(ps[..n], proc, i); }
  }

  lemma {:induction false} MeaningAt(ps: seq<Request>, proc: string, i: nat)
    requires i < |ps|
    ensures |StoreMeanings(ps, proc)| == |ps| && StoreMeanings(ps, proc)[i] == StoreTokens(ps[i], proc)
  {
    var n := |ps| - 1;
    BlocksInNumber(ps, proc);
    BlocksInNumber(ps[..n], proc);
    if i < n { MeaningAt(ps[..n], proc, i); }
  }

  lemma BlockOf(ps: seq<Request>, proc: string, i: nat)
    requires i < |ps|
    ensures |StoreBlocks(ps, proc)| == |StoreMeanings(ps, proc)| == |ps|
    ensures StoreBlocks(ps, proc)[i] == Stores(ps[i], proc, CopyOf(ps[i]))
    ensures StoreMeanings(ps, proc)[i] == StoreTokens(ps[i], proc)
  {
    BlockAt(ps, proc, i);
    MeaningAt(ps, proc, i);
  }

  /** There is a call that saves `p`. */
  predicate Saved(p: Request, proc: string) {
    proc != "" && (IsTable(p.Kind()) ==> p.values != [])
  }

  /** The characters of the name can stand in a placeholder; of a boolean, whose value is written instead,
      neither name nor value has a quote. */
  predicate StoreReads(p: Request, proc: string) {
    Saved(p, proc) ==>
      if p.Kind().Boolean? then QUOTE !in p.name && QUOTE !in ScalarValue(p) else NameChars(p.name)
  }

  lemma TableLineReads(p: Request, proc: string, i: nat)
    requires Quiet(proc) && NameChars(p.name)
    ensures var line := StoreLine(proc, p.name, [CopyOf(p), Plain(Index(i))]);
      Closed(line) && TokensOf(line) == [Literal(Text.ToUpper(p.name))] + [Placeholder(p.name + "#")]
  {
    NameCharsAreQuiet(p.name);
    CopyIsIdentifier(p.name);
    IndexIsInert(i);
    ReadablePair(CopyOf(p), Plain(Index(i)));
    StoreLineReads(proc, p.name, [CopyOf(p), Plain(Index(i))]);
  }

  lemma {:induction false} TableStoresRead(p: Request, proc: string, n: nat)
    requires Quiet(proc) && NameChars(p.name)
    ensures Closed(TableStores(p, proc, CopyOf(p), n))
    ensures TokensOf(TableStores(p, proc, CopyOf(p), n)) == TableTokens(p, n)
  {
    if n > 0 {
      TableStoresRead(p, proc, n - 1);
      TableLineReads(p, proc, n - 1);
      ClosedConcat(TableStores(p, proc, CopyOf(p), n - 1), StoreLine(proc, p.name, [CopyOf(p), Plain(Index(n - 1))]));
    }
  }

  lemma StoresRead(p: Request, proc: string)
    requires Quiet(proc) && StoreReads(p, proc)
    ensures Closed(Stores(p, proc, CopyOf(p)))
    ensures TokensOf(Stores(p, proc, CopyOf(p))) == StoreTokens(p, proc)
  {
    if proc != "" && IsTable(p.Kind()) {
      if p.values != [] { TableStoresRead(p, proc, |p.values|); }
    } else if proc != "" && p.Kind().Boolean? {
      MeaningOfDoubled(ScalarValue(p));
      ReadableSingle(Quoted(ScalarValue(p)));
      StoreLineReads(proc, p.name, [Quoted(ScalarValue(p))]);
    } else if proc != "" {
      NameCharsAreQuiet(p.name);
      CopyIsIdentifier(p.name);
      ReadableSingle(CopyOf(p));
      StoreLineReads(proc, p.name, [CopyOf(p)]);
    }
  }

  lemma ExecStoreReads(ps: seq<Request>, proc: string)
    requires Quiet(proc) && forall p <- ps :: StoreReads(p, proc)
    ensures Closed(ExecStores(ps, proc)) && TokensOf(ExecStores(ps, proc)) == AllStoreTokens(ps, proc)
  {
    StoresInBlocks(ps, proc);
    if ps != [] { BlockOf(ps, proc, 0); }
    forall j | 0 <= j < |ps|
      ensures Closed(StoreBlocks(ps, proc)[j]) && TokensOf(StoreBlocks(ps, proc)[j]) == StoreMeanings(ps, proc)[j]
    {
      BlockOf(ps, proc, j);
      StoresRead(ps[j], proc);
    }
    BlocksRead(StoreBlocks(ps, proc), StoreMeanings(ps, proc));
  }

  lemma RenderBooleanLine(proc: string, name: string, value: string, tail: string)
    ensures Render(StoreLine(proc, name, [Quoted(value)])) + tail ==
      ("  " + proc + "(") +
      ([QUOTE] + (Text.ToUpper(name) + [QUOTE] + (", " + ([QUOTE] + (value + [QUOTE] + (");\n" + tail))))))
  {
    var a, b, c := Plain("  " + proc + "("), Quoted(Text.ToUpper(name)), Plain(", ");
    var d, e := Quoted(value), Plain(");\n");
    assert StoreLine(proc, name, [d]) == [a] + ([b] + ([c] + ([d] + [e])));
    RenderInto(a, [b] + ([c] + ([d] + [e])), tail);
    RenderQuotedInto(b.text, [c] + ([d] + [e]), tail);
    RenderInto(c, [d] + [e], tail);
    RenderQuotedInto(value, [e], tail);
    RenderSingle(e);
  }

  /** A boolean whose name or value has a quote is misread, whatever follows. */
  lemma BooleanMisread(p: Request, proc: string, tail: string)
    requires Quiet(proc) && p.Kind().Boolean? && !StoreReads(p, proc)
    ensures Misread(Render(Stores(p, proc, CopyOf(p))) + tail, StoreTokens(p, proc))
  {
    var upper, value := Text.ToUpper(p.name), ScalarValue(p);
    var rest := ");\n" + tail;
    var second := ", " + ([QUOTE] + (value + [QUOTE] + rest));
    RenderBooleanLine(proc, p.name, value, tail);
    HeadIsInert(proc);
    SkipInert("  " + proc + "(", [QUOTE] + (upper + [QUOTE] + second));
    UpperKeepsQuotes(p.name);
    if QUOTE in p.name {
      MisreadHere(upper, second);
      assert Differs(Scan([QUOTE] + (upper + [QUOTE] + second)), StoreTokens(p, proc), 0);
    } else {
      DoublingLengthens(upper);
      ScanQuoted(upper, second);
      SkipInert(", ", [QUOTE] + (value + [QUOTE] + rest));
      MisreadHere(value, rest);
      assert Differs(Scan([QUOTE] + (upper + [QUOTE] + second)), StoreTokens(p, proc), 1);
    }
  }

  /** The first parameter that cannot be read, if it is a boolean, is where the scan goes wrong. */
  lemma StoresMisread(ps: seq<Request>, proc: string, i: nat, tail: string)
    requires Quiet(proc) && i < |ps| && ps[i].Kind().Boolean? && !StoreReads(ps[i], proc)
    requires forall p <- ps[..i] :: StoreReads(p, proc)
    ensures Misread(Render(ExecStores(ps, proc)) + tail, AllStoreTokens(ps, proc))
  {
    StoresInBlocks(ps, proc);
    BlockOf(ps, proc, i);
    forall j | 0 <= j < i
      ensures Closed(StoreBlocks(ps, proc)[j]) && TokensOf(StoreBlocks(ps, proc)[j]) == StoreMeanings(ps, proc)[j]
    {
      BlockOf(ps, proc, j);
      assert ps[..i][j] == ps[j];
      StoresRead(ps[j], proc);
    }
    forall rest ensures Misread(Render(StoreBlocks(ps, proc)[i]) + rest, StoreMeanings(ps, proc)[i]) {
      BooleanMisread(ps[i], proc, rest);
    }
    BlockSpoils(StoreBlocks(ps, proc), StoreMeanings(ps, proc), i, tail);
  }

  lemma {:induction false} FirstThatFails(ps: seq<Request>, proc: string) returns (i: nat)
    requires exists p <- ps :: !StoreReads(p, proc)
    ensures i < |ps| && !StoreReads(ps[i], proc) && forall p <- ps[..i] :: StoreReads(p, proc)
  {
    var n := |ps| - 1;
    if p :| p in ps[..n] && !StoreReads(p, proc) {
      i := FirstThatFails(ps[..n], proc);
      assert ps[..n][..i] == ps[..i];
    } else {
      i := n;
    }
  }

  lemma CopyInTokens(p: Request, proc: string)
    requires Saved(p, proc) && !p.Kind().Boolean?
    ensures Placeholder(p.name + "#") in StoreTokens(p, proc)
  {
    var copy := Placeholder(p.name + "#");
    if IsTable(p.Kind()) {
      var n := |p.values|;
      assert TableTokens(p, n)[|TableTokens(p, n)| - 1] == copy;
    } else {
      assert StoreTokens(p, proc)[1] == copy;
    }
  }

  lemma {:induction false} CopyIsMeant(ps: seq<Request>, proc: string, i: nat)
    requires i < |ps| && Saved(ps[i], proc) && !ps[i].Kind().Boolean?
    ensures Placeholder(ps[i].name + "#") in AllStoreTokens(ps, proc)
  {
    var n := |ps| - 1;
    FlatTokensAppend(StoreMeanings(ps[..n], proc), StoreTokens(ps[n], proc));
    if i < n { CopyIsMeant(ps[..n], proc, i); } else { CopyInTokens(ps[i], proc); }
  }

  /** A scanner reads from the calls that save the parameters exactly what was meant if and only if all of
      them can be read: placeholders by the characters of their names, booleans for lack of quotes. */
  lemma StoresReadExactly(ps: seq<Request>, proc: string)
    requires Quiet(proc)
    ensures Scan(Render(ExecStores(ps, proc))) == AllStoreTokens(ps, proc) <==> forall p <- ps :: StoreReads(p, proc)
  {
    var text := Render(ExecStores(ps, proc));
    if forall p <- ps :: StoreReads(p, proc) {
      ExecStoreReads(ps, proc);
      ScanOfRender(ExecStores(ps, proc));
    } else {
      var i := FirstThatFails(ps, proc);
      if ps[i].Kind().Boolean? {
        StoresMisread(ps, proc, i, []);
        assert text + [] == text;
      } else {
        CopyIsMeant(ps, proc, i);
        CopyIsIdentifier(ps[i].name);
        if Placeholder(ps[i].name + "#") in Scan(text) { PlaceholdersAreIdentifiers(text, ps[i].name + "#"); }
      }
    }
  }

  // ---------- The argument list ----------

  function ArgTokens(p: Request): seq<Token> {
    [Placeholder(p.name)] + if p.Kind().Boolean? then [Literal("true")] else []
  }

  /** What the argument list is meant to say: the placeholder of every argument, in order. */
  function AllArgTokens(args: seq<Request>): seq<Token> {
    if args == [] then [] else ArgTokens(args[0]) + AllArgTokens(args[1..])
  }

  lemma PassedReads(name: string)
    requires Identifier(name)
    ensures Readable([Plain(name + " => "), Bind(name)])
    ensures TokensOf([Plain(name + " => "), Bind(name)]) == [Placeholder(name)]
  {
    NameCharsAreQuiet(name);
    QuietIsInert(name);
    InertConcat(name, " => ");
    ReadablePair(Plain(name + " => "), Bind(name));
  }

  lemma TrueReads()
    ensures Readable([Plain(" = "), Quoted("true")]) && TokensOf([Plain(" = "), Quoted("true")]) == [Literal("true")]
  {
    MeaningOfDoubled("true");
    ReadablePair(Plain(" = "), Quoted("true"));
  }

  lemma ArgumentReads(p: Request)
    requires Identifier(p.name) && !p.Kind().Foreign?
    ensures Readable(ExecArgument(p)[0]) && TokensOf(ExecArgument(p)[0]) == ArgTokens(p)
  {
    PassedReads(p.name);
    if p.Kind().Boolean? {
      TrueReads();
      ReadableConcat([Plain(p.name + " => "), Bind(p.name)], [Plain(" = "), Quoted("true")]);
      assert ExecArgument(p)[0] == [Plain(p.name + " => "), Bind(p.name)] + [Plain(" = "), Quoted("true")];
    }
  }

  lemma JoinReads(item: seq<Segment>, rest: seq<Segment>)
    requires Readable(item) && Readable(rest)
    ensures Readable(item + [Plain(", ")] + rest)
    ensures TokensOf(item + [Plain(", ")] + rest) == TokensOf(item) + TokensOf(rest)
  {
    CommaReads(item);
    ReadableConcat(item + [Plain(", ")], rest);
  }

  lemma CommaReads(item: seq<Segment>)
    requires Readable(item)
    ensures Closed(item + [Plain(", ")]) && TokensOf(item + [Plain(", ")]) == TokensOf(item)
  {
    ReadableSingle(Plain(", "));
    ReadableConcat(item, [Plain(", ")]);
  }

  lemma {:induction false} JoinedReads(items: seq<seq<Segment>>, args: seq<Request>)
    requires |items| == |args|
    requires forall i | 0 <= i < |items| :: Readable(items[i]) && TokensOf(items[i]) == ArgTokens(args[i])
    ensures Readable(Joined(items)) && TokensOf(Joined(items)) == AllArgTokens(args)
  {
    if |items| == 1 {
      assert AllArgTokens(args[1..]) == [];
    } else if |items| > 1 {
      JoinedReads(items[1..], args[1..]);
      JoinReads(items[0], Joined(items[1..]));
    }
  }

  lemma ExecArgsRead(ps: seq<Request>)
    requires forall p <- Arguments(ps) :: Identifier(p.name)
    ensures Readable(Joined(ExecArgs(ps))) && TokensOf(Joined(ExecArgs(ps))) == AllArgTokens(Arguments(ps))
  {
    var items, args := ExecArgs(ps), Arguments(ps);
    SameArguments(ps);
    forall i | 0 <= i < |items| ensures Readable(items[i]) && TokensOf(items[i]) == ArgTokens(args[i]) {
      ArgumentIsParameter(ps, i);
      assert ExecArgument(args[i])[0] == items[i] && args[i] in args;
      ArgumentReads(args[i]);
    }
    JoinedReads(items, args);
  }

  lemma {:induction false} ArgumentIsMeant(args: seq<Request>, i: nat)
    requires i < |args|
    ensures Placeholder(args[i].name) in AllArgTokens(args)
  {
    if i > 0 { ArgumentIsMeant(args[1..], i - 1); }
  }

  /** A scanner reads from the argument list exactly the placeholders that were meant if and only if the
      names of the arguments are identifiers. */
  lemma ArgsReadExactly(ps: seq<Request>)
    ensures Scan(Render(Joined(ExecArgs(ps)))) == AllArgTokens(Arguments(ps)) <==>
      forall p <- Arguments(ps) :: Identifier(p.name)
  {
    var text := Render(Joined(ExecArgs(ps)));
    if forall p <- Arguments(ps) :: Identifier(p.name) {
      ExecArgsRead(ps);
      ScanOfRender(Joined(ExecArgs(ps)));
    } else {
      var i: nat :| i < |Arguments(ps)| && !Identifier(Arguments(ps)[i].name);
      ArgumentIsMeant(Arguments(ps), i);
      if Placeholder(Arguments(ps)[i].name) in Scan(text) { PlaceholdersAreIdentifiers(text, Arguments(ps)[i].name); }
    }
  }

  // ---------- Placeholders and keys ----------

  /** All that is executed can be read as it was meant. */
  predicate Reads(ps: seq<Request>, proc: string) {
    (forall p <- ps :: StoreReads(p, proc)) && forall p <- Arguments(ps) :: Identifier(p.name)
  }

  /** The scanner sees what was meant in both parts of the statement. */
  predicate ScannedAsMeant(ps: seq<Request>, proc: string) {
    && Scan(Render(ExecStores(ps, proc))) == AllStoreTokens(ps, proc)
    && Scan(Render(Joined(ExecArgs(ps)))) == AllArgTokens(Arguments(ps))
  }

  /** The statement is read as it was meant exactly under that condition, and then the placeholders that a
      scanner finds are the names of the bind variables, but for the copies of empty tables. */
  lemma FoundAreKeys(ps: seq<Request>, proc: string)
    requires Quiet(proc)
    ensures ScannedAsMeant(ps, proc) <==> Reads(ps, proc)
    ensures ScannedAsMeant(ps, proc) ==>
      Found(Render(ExecStores(ps, proc))) + Found(Render(Joined(ExecArgs(ps)))) + EmptyCopies(ps, proc) ==
      Binds(ps, proc).Keys
  {
    StoresReadExactly(ps, proc);
    ArgsReadExactly(ps);
    if Reads(ps, proc) {
      ExecStoreReads(ps, proc);
      ExecArgsRead(ps);
      FoundIsWritten(ExecStores(ps, proc));
      FoundIsWritten(Joined(ExecArgs(ps)));
      PlaceholdersAreKeys(ps, proc);
    }
  }

  // ---------- Shown values ----------

  /** A shown string reads as the string that is bound, whatever its characters. */
  lemma ShownIsBound(p: Request, suffix: string)
    requires p.Kind().Str? || p.Kind().Foreign?
    requires suffix == [] || suffix[0] != QUOTE
    ensures ReadLiteral(Render(Shown(p.Kind(), ScalarValue(p))) + suffix) == Some((ScalarValue(p), suffix))
    ensures StoredValue(p) == Text(ScalarValue(p)) && (p.Kind().Str? ==> ArgumentValue(p) == StoredValue(p))
  {
    QuotingRoundTrip(ScalarValue(p), suffix);
    RenderSingle(Quoted(DoubleQuotes(ScalarValue(p))));
  }

  lemma {:induction false} RemoveCROfConcat(a: string, b: string)
    ensures RemoveCR(a + b) == RemoveCR(a) + RemoveCR(b)
  {
    if a == [] {
      assert a + b == b;
    } else {
      assert (a + b)[1..] == a[1..] + b;
      RemoveCROfConcat(a[1..], b);
    }
  }

  lemma {:induction false} RemoveCRKeeps(s: string, c: char)
    ensures c in RemoveCR(s) <==> c in s && c != CR
    ensures |RemoveCR(s)| <= |s| && (CR in s <==> |RemoveCR(s)| < |s|)
    ensures CR !in s ==> RemoveCR(s) == s
  {
    if s != [] {
      RemoveCRKeeps(s[1..], c);
      assert s == [s[0]] + s[1..];
    }
  }

  lemma {:induction false} TrimmedTail(s: string, c: char)
    requires c in s[|TrimRightCRLF(s)|..]
    ensures c == CR || c == LF
  {
    var n := |s| - 1;
    if c in s[..n][|TrimRightCRLF(s)|..] {
      TrimmedTail(s[..n], c);
    } else {
      assert s[|TrimRightCRLF(s)|..] == s[..n][|TrimRightCRLF(s)|..] + [s[n]];
    }
  }

  lemma {:induction false} KeptEnd(s: string)
    ensures TrimRightCRLF(s) != [] ==> TrimRightCRLF(s)[|TrimRightCRLF(s)| - 1] !in [CR, LF]
  {
    if s != [] { KeptEnd(s[..|s| - 1]); }
  }

  /** What trimming keeps is what removing carriage returns leaves, exactly when the text kept has no CR
      and the text trimmed has no LF. */
  lemma TrimOrRemove(v: string)
    ensures RemoveCR(v) == TrimRightCRLF(v) <==> (CR !in TrimRightCRLF(v) && LF !in v[|TrimRightCRLF(v)|..])
  {
    var kept := TrimRightCRLF(v);
    var cut := v[|kept|..];
    assert v == kept + cut;
    RemoveCROfConcat(kept, cut);
    RemoveCRKeeps(kept, CR);
    RemoveCRKeeps(cut, LF);
    if RemoveCR(cut) != [] {
      var last := RemoveCR(cut)[|RemoveCR(cut)| - 1];
      RemoveCRKeeps(cut, last);
      TrimmedTail(v, last);
      KeptEnd(v);
      assert RemoveCR(v)[|RemoveCR(v)| - 1] == LF;
    }
  }

  /** An element of a table of strings is shown trimmed at the end and bound without its carriage returns.
      The two are the same exactly when the text kept has no CR and the text trimmed has no LF. */
  lemma ShownElementIsBound(v: string, suffix: string)
    requires suffix == [] || suffix[0] != QUOTE
    ensures var shown := Render(Shown(StringTab, TrimRightCRLF(v)));
      ReadLiteral(shown + suffix) == Some((Element(StringTab, v), suffix)) <==>
      (CR !in TrimRightCRLF(v) && LF !in v[|TrimRightCRLF(v)|..])
  {
    var kept := TrimRightCRLF(v);
    QuotingRoundTrip(kept, suffix);
    RenderSingle(Quoted(DoubleQuotes(kept)));
    TrimOrRemove(v);
  }
}
