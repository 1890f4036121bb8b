/**
 The text of a PL/SQL statement, as the builder writes it and as a scanner reads it. What is written
 is a sequence of segments; reading knows string literals and `:name` placeholders only.
 */
module StatementText {
  import opened Options

  const QUOTE := '\''

  /** strings.Replace(s, "'", "''", -1). */
  function DoubleQuotes(s: string): string {
    if s == [] then []
    else (if s[0] == QUOTE then [QUOTE, QUOTE] else [s[0]]) + DoubleQuotes(s[1..])
  }

  // ---------- String literals ----------

  /** Reads a string literal at the head of `s`: its value, and the text after it. */
  function ReadLiteral(s: string): Option<(string, string)> {
    if s == [] || s[0] != QUOTE then None else ReadLiteralBody(s[1..])
  }

  function ReadLiteralBody(s: string): (r: Option<(string, string)>)
    ensures r.Some? ==> |r.value.1| < |s|
    decreases |s|
  {
    if s == [] then None
    else if s[0] == QUOTE then
      if |s| > 1 && s[1] == QUOTE then Prepend(QUOTE, ReadLiteralBody(s[2..])) else Some(([], s[1..]))
    else Prepend(s[0], ReadLiteralBody(s[1..]))
  }

  function Prepend(c: char, r: Option<(string, string)>): (q: Option<(string, string)>)
    ensures q.Some? <==> r.Some?
    ensures r.Some? ==> q.value == ([c] + r.value.0, r.value.1)
  {
    match r
    case None => None
    case Some((value, rest)) => Some(([c] + value, rest))
  }

  lemma {:induction false} ReadDoubled(value: string, suffix: string)
    requires suffix == [] || suffix[0] != QUOTE
    ensures ReadLiteralBody(DoubleQuotes(value) + [QUOTE] + suffix) == Some((value, suffix))
    decreases |value|
  {
    var tail := [QUOTE] + suffix;
    if value == [] {
      assert DoubleQuotes(value) + [QUOTE] + suffix == tail && tail[1..] == suffix;
    } else {
      var rest := DoubleQuotes(value[1..]) + [QUOTE] + suffix;
      ReadDoubled(value[1..], suffix);
      if value[0] == QUOTE {
        assert DoubleQuotes(value) + [QUOTE] + suffix == [QUOTE, QUOTE] + rest;
        assert ([QUOTE, QUOTE] + rest)[2..] == rest;
      } else {
        assert DoubleQuotes(value) + [QUOTE] + suffix == [value[0]] + rest;
        assert ([value[0]] + rest)[1..] == rest;
      }
      assert [value[0]] + value[1..] == value;
    }
  }

  /** Whatever is read was written by doubling: reading has no other inverse. */
  lemma {:induction false} ReadIsDoubled(s: string)
    requires ReadLiteralBody(s).Some?
    ensures
      var (value, rest) := ReadLiteralBody(s).value;
      s == DoubleQuotes(value) + ([QUOTE] + rest) && (rest == [] || rest[0] != QUOTE)
    decreases |s|
  {
    if s[0] != QUOTE {
      ReadIsDoubled(s[1..]);
      DoubledHead(s, 1);
    } else if |s| > 1 && s[1] == QUOTE {
      ReadIsDoubled(s[2..]);
      DoubledHead(s, 2);
    } else {
      assert s == [QUOTE] + s[1..];
    }
  }

  lemma DoubledHead(s: string, n: nat)
    requires 0 < n <= |s| && DoubleQuotes([s[0]]) == s[..n]
    ensures forall value, rest {:trigger DoubleQuotes(value) + ([QUOTE] + rest)} ::
      s[n..] == DoubleQuotes(value) + ([QUOTE] + rest) ==> s == DoubleQuotes([s[0]] + value) + ([QUOTE] + rest)
  {
    assert s == s[..n] + s[n..];
    forall value, rest | s[n..] == DoubleQuotes(value) + ([QUOTE] + rest)
      ensures s == DoubleQuotes([s[0]] + value) + ([QUOTE] + rest)
    {
      assert ([s[0]] + value)[1..] == value;
    }
  }

  /** A literal is read as `value` with `rest` behind it exactly when it is the quoted, doubled value
      and `rest` does not go on with a quote. */
  lemma ReadExactly(s: string, value: string, rest: string)
    ensures ReadLiteral(s) == Some((value, rest)) <==>
      (s == [QUOTE] + DoubleQuotes(value) + [QUOTE] + rest && (rest == [] || rest[0] != QUOTE))
  {
    if ReadLiteral(s) == Some((value, rest)) {
      ReadIsDoubled(s[1..]);
      assert s == [QUOTE] + s[1..];
    }
    if s == [QUOTE] + DoubleQuotes(value) + [QUOTE] + rest && (rest == [] || rest[0] != QUOTE) {
      ReadDoubled(value, rest);
      assert s[1..] == DoubleQuotes(value) + [QUOTE] + rest;
    }
  }

  /** Reading back a quoted value gives the value and leaves the rest of the statement, for every value,
      exactly when the rest does not begin with a quote. */
  lemma QuotingRoundTrip(value: string, suffix: string)
    ensures ReadLiteral([QUOTE] + DoubleQuotes(value) + [QUOTE] + suffix) == Some((value, suffix)) <==>
      (suffix == [] || suffix[0] != QUOTE)
  {
    ReadExactly([QUOTE] + DoubleQuotes(value) + [QUOTE] + suffix, value, suffix);
  }

  lemma {:induction false} DoublingLengthens(value: string)
    ensures |DoubleQuotes(value)| >= |value|
    ensures QUOTE in value <==> |DoubleQuotes(value)| > |value|
    ensures QUOTE !in value ==> DoubleQuotes(value) == value
  {
    if value != [] {
      DoublingLengthens(value[1..]);
      assert value == [value[0]] + value[1..];
    }
  }

  /** Quoted without doubling, as boolean values, parameter names and dates are, a value is read back
      exactly when there is no quote in it. */
  lemma UndoubledRoundTrip(value: string, suffix: string)
    requires suffix == [] || suffix[0] != QUOTE
    ensures ReadLiteral([QUOTE] + value + [QUOTE] + suffix) == Some((value, suffix)) <==> QUOTE !in value
  {
    var s := [QUOTE] + value + [QUOTE] + suffix;
    ReadExactly(s, value, suffix);
    DoublingLengthens(value);
    if s == [QUOTE] + DoubleQuotes(value) + [QUOTE] + suffix {
      assert |s| == |value| + 2 + |suffix| && |s| == |DoubleQuotes(value)| + 2 + |suffix|;
    }
  }

  // ---------- Segments and placeholders ----------

  /** What the builder writes: fixed text, a literal (its text between the quotes), a placeholder, a
      variable `l_name` of the text for display, or a value as it came. */
  datatype Segment =
    | Plain(text: string) | Quoted(text: string) | Bind(name: string) | Var(name: string) | Raw(text: string)

  function RenderOne(g: Segment): string {
    match g
    case Plain(t) => t
    case Quoted(t) => [QUOTE] + t + [QUOTE]
    case Bind(n) => ":" + n
    case Var(n) => "l_" + n
    case Raw(t) => t
  }

  function Render(gs: seq<Segment>): string {
    if gs == [] then [] else RenderOne(gs[0]) + Render(gs[1..])
  }

  lemma {:induction false} RenderConcat(a: seq<Segment>, b: seq<Segment>)
    ensures Render(a + b) == Render(a) + Render(b)
  {
    if a == [] {
      assert a + b == b;
    } else {
      assert (a + b)[1..] == a[1..] + b;
      RenderConcat(a[1..], b);
    }
  }

  /** The placeholders and the variables that were written. */
  function BindNames(gs: seq<Segment>): set<string> {
    if gs == [] then {} else BindName(gs[0]) + BindNames(gs[1..])
  }

  function BindName(g: Segment): set<string> { if g.Bind? then {g.name} else {} }

  function VarNames(gs: seq<Segment>): set<string> {
    if gs == [] then {} else VarName(gs[0]) + VarNames(gs[1..])
  }

  function VarName(g: Segment): set<string> { if g.Var? then {g.name} else {} }

  lemma NamesOfOne(a: Segment)
    ensures BindNames([a]) == BindName(a) && VarNames([a]) == VarName(a)
  {
    assert [a][1..] == [];
  }

  lemma NamesOfTwo(a: Segment, b: Segment)
    ensures BindNames([a, b]) == BindName(a) + BindName(b) && VarNames([a, b]) == VarName(a) + VarName(b)
  {
    assert [a, b][1..] == [b];
    NamesOfOne(b);
  }

  lemma NamesOfThree(a: Segment, b: Segment, c: Segment)
    ensures BindNames([a, b, c]) == BindName(a) + BindName(b) + BindName(c)
    ensures VarNames([a, b, c]) == VarName(a) + VarName(b) + VarName(c)
  {
    assert [a, b, c][1..] == [b, c];
    NamesOfTwo(b, c);
  }

  lemma {:induction false} NamesOfConcat(a: seq<Segment>, b: seq<Segment>)
    ensures BindNames(a + b) == BindNames(a) + BindNames(b) && VarNames(a + b) == VarNames(a) + VarNames(b)
  {
    if a == [] {
      assert a + b == b;
    } else {
      assert (a + b)[1..] == a[1..] + b;
      NamesOfConcat(a[1..], b);
    }
  }

  predicate NameChar(c: char) {
    'a' <= c <= 'z' || 'A' <= c <= 'Z' || '0' <= c <= '9' || c == '_' || c == '$' || c == '#'
  }

  predicate NameChars(s: string) {
    s == [] || (NameChar(s[0]) && NameChars(s[1..]))
  }

  predicate Identifier(s: string) { s != [] && NameChars(s) }

  /** The length of the name at the head of `s`. */
  function NameLength(s: string): (n: nat)
    ensures n <= |s|
  {
    if s == [] || !NameChar(s[0]) then 0 else 1 + NameLength(s[1..])
  }

  /** What a scanner sees in the text of a statement: string literals, by their value, and placeholders. */
  datatype Token = Literal(value: string) | Placeholder(name: string) | Unclosed

  function Scan(s: string): seq<Token>
    decreases |s|
  {
    if s == [] then []
    else if s[0] == QUOTE then
      match ReadLiteralBody(s[1..])
      case None => [Unclosed]
      case Some((value, rest)) => [Literal(value)] + Scan(rest)
    else if s[0] == ':' && NameLength(s[1..]) > 0 then
      var n := NameLength(s[1..]);
      [Placeholder(s[1..1 + n])] + Scan(s[1 + n..])
    else Scan(s[1..])
  }

  /** Text with no quotes, and no colon that a name could follow. */
  predicate Inert(t: string) {
    t == [] || (t[0] != QUOTE && (t[0] == ':' ==> |t| > 1 && !NameChar(t[1])) && Inert(t[1..]))
  }

  lemma {:induction false} InertConcat(t: string, s: string)
    requires Inert(t) && Inert(s)
    ensures Inert(t + s)
  {
    if t == [] {
      assert t + s == s;
    } else {
      assert (t + s)[1..] == t[1..] + s;
      InertConcat(t[1..], s);
    }
  }

  lemma {:induction false} SkipInert(t: string, s: string)
    requires Inert(t)
    ensures Scan(t + s) == Scan(s)
    decreases |t|
  {
    if t == [] {
      assert t + s == s;
    } else {
      assert (t + s)[1..] == t[1..] + s && (t + s)[0] == t[0];
      SkipInert(t[1..], s);
      if t[0] == ':' { assert (t[1..] + s)[0] == t[1]; }
    }
  }

  lemma {:induction false} NameLengthOf(n: string, s: string)
    requires NameChars(n) && (s == [] || !NameChar(s[0]))
    ensures NameLength(n + s) == |n|
    decreases |n|
  {
    if n == [] {
      assert n + s == s;
    } else {
      assert (n + s)[1..] == n[1..] + s;
      NameLengthOf(n[1..], s);
    }
  }

  lemma PlaceholderParts(n: string, s: string)
    ensures var text := ":" + n + s;
      text[0] == ':' && text[1..] == n + s && text[1..1 + |n|] == n && text[1 + |n|..] == s
  {
  }

  lemma ScanPlaceholder(n: string, s: string)
    requires Identifier(n) && (s == [] || !NameChar(s[0]))
    ensures Scan(":" + n + s) == [Placeholder(n)] + Scan(s)
  {
    NameLengthOf(n, s);
    PlaceholderParts(n, s);
  }

  lemma ScanLiteral(body: string)
    requires ReadLiteralBody(body).Some?
    ensures Scan([QUOTE] + body) == [Literal(ReadLiteralBody(body).value.0)] + Scan(ReadLiteralBody(body).value.1)
  {
    assert ([QUOTE] + body)[1..] == body;
  }

  lemma ScanQuoted(value: string, s: string)
    requires s == [] || s[0] != QUOTE
    ensures Scan([QUOTE] + (DoubleQuotes(value) + [QUOTE] + s)) == [Literal(value)] + Scan(s)
  {
    ReadDoubled(value, s);
    ScanLiteral(DoubleQuotes(value) + [QUOTE] + s);
  }

  lemma Regroup(t: string, s: string)
    ensures [QUOTE] + t + [QUOTE] + s == [QUOTE] + (t + [QUOTE] + s)
  {
  }

  /** The value of a literal with text `t` between its quotes, if all quotes in it are doubled. */
  function Meaning(t: string): Option<string>
    decreases |t|
  {
    if t == [] then Some([])
    else if t[0] != QUOTE then Preceded(t[0], Meaning(t[1..]))
    else if |t| > 1 && t[1] == QUOTE then Preceded(QUOTE, Meaning(t[2..]))
    else None
  }

  function Preceded(c: char, value: Option<string>): Option<string> {
    match value
    case None => None
    case Some(v) => Some([c] + v)
  }

  lemma {:induction false} MeaningOfDoubled(value: string)
    ensures Meaning(DoubleQuotes(value)) == Some(value)
    ensures QUOTE !in value ==> Meaning(value) == Some(value)
  {
    if value != [] {
      var rest := DoubleQuotes(value[1..]);
      MeaningOfDoubled(value[1..]);
      assert value == [value[0]] + value[1..];
      if value[0] == QUOTE {
        assert DoubleQuotes(value) == [QUOTE, QUOTE] + rest && ([QUOTE, QUOTE] + rest)[2..] == rest;
      } else {
        assert ([value[0]] + rest)[1..] == rest;
      }
    }
  }

  lemma {:induction false} DoubledMeaning(t: string)
    requires Meaning(t).Some?
    ensures t == DoubleQuotes(Meaning(t).value)
    decreases |t|
  {
    if t != [] {
      var skip := if t[0] == QUOTE then 2 else 1;
      DoubledMeaning(t[skip..]);
      assert Meaning(t).value[1..] == Meaning(t[skip..]).value;
      assert t == t[..skip] + t[skip..];
    }
  }

  /** A segment that a scanner can read as it was meant. */
  predicate Legible(g: Segment) {
    match g
    case Plain(t) => Inert(t)
    case Quoted(t) => Meaning(t).Some?
    case Bind(n) => Identifier(n)
    case _ => false
  }

  /** What the scanner ought to see in a segment. */
  function TokenOf(g: Segment): seq<Token>
    requires Legible(g)
  {
    match g
    case Plain(_) => []
    case Quoted(t) => [Literal(Meaning(t).value)]
    case Bind(n) => [Placeholder(n)]
  }

  /** Text that neither lengthens a name nor goes on with a literal before it. */
  predicate Ends(s: string) {
    s != [] && !NameChar(s[0]) && s[0] != QUOTE
  }

  /** All segments are legible, and behind a placeholder or a literal comes text that ends it. */
  predicate Readable(gs: seq<Segment>) {
    gs == [] || (Legible(gs[0]) && (|gs| > 1 && !gs[0].Plain? ==> Ends(RenderOne(gs[1]))) && Readable(gs[1..]))
  }

  function TokensOf(gs: seq<Segment>): seq<Token>
    requires Readable(gs)
  {
    if gs == [] then [] else TokenOf(gs[0]) + TokensOf(gs[1..])
  }

  lemma ReadableCons(g: Segment, gs: seq<Segment>)
    requires Legible(g) && Readable(gs) && (gs != [] && !g.Plain? ==> Ends(RenderOne(gs[0])))
    ensures Readable([g] + gs) && TokensOf([g] + gs) == TokenOf(g) + TokensOf(gs)
  {
    assert ([g] + gs)[1..] == gs;
  }

  lemma {:induction false} ReadableConcat(a: seq<Segment>, b: seq<Segment>)
    requires Readable(a) && Readable(b)
    requires a == [] || b == [] || a[|a| - 1].Plain? || Ends(RenderOne(b[0]))
    ensures Readable(a + b) && TokensOf(a + b) == TokensOf(a) + TokensOf(b)
  {
    if a == [] {
      NothingBefore(a, b);
    } else {
      var rest := a[1..];
      assert rest == [] || rest[|rest| - 1] == a[|a| - 1];
      ReadableConcat(rest, b);
      ReadableStep(a, b);
    }
  }

  lemma NothingBefore(a: seq<Segment>, b: seq<Segment>)
    requires a == [] && Readable(b)
    ensures Readable(a + b) && TokensOf(a + b) == TokensOf(a) + TokensOf(b)
  {
    assert a + b == b;
  }

  lemma ReadableStep(a: seq<Segment>, b: seq<Segment>)
    requires a != [] && Readable(a) && Readable(b) && Readable(a[1..] + b)
    requires b == [] || a[|a| - 1].Plain? || Ends(RenderOne(b[0]))
    requires TokensOf(a[1..] + b) == TokensOf(a[1..]) + TokensOf(b)
    ensures Readable(a + b) && TokensOf(a + b) == TokensOf(a) + TokensOf(b)
  {
    FirstOf(a, b);
    ReadableCons(a[0], a[1..] + b);
    TokensInARow(TokenOf(a[0]), TokensOf(a[1..]), TokensOf(b));
  }

  lemma TokensInARow(a: seq<Token>, b: seq<Token>, c: seq<Token>)
    ensures a + (b + c) == (a + b) + c
  {
  }

  lemma FirstOf(a: seq<Segment>, b: seq<Segment>)
    requires a != []
    ensures a + b == [a[0]] + (a[1..] + b)
    ensures a[1..] + b != [] ==> (a[1..] + b)[0] == if |a| > 1 then a[1] else b[0]
  {
  }

  /** Scanning the text of readable segments gives what was written, in order, and goes on behind it. */
  lemma {:induction false} ScanPrefix(gs: seq<Segment>, s: string)
    requires Readable(gs) && (gs != [] && !gs[|gs| - 1].Plain? ==> s == [] || Ends(s))
    ensures Scan(Render(gs) + s) == TokensOf(gs) + Scan(s)
  {
    if gs == [] {
      assert Render(gs) + s == s;
    } else {
      ScanPrefix(gs[1..], s);
      TextBehind(gs, s);
      ScanHead(gs[0], Render(gs[1..]) + s);
    }
  }

  lemma TextBehind(gs: seq<Segment>, s: string)
    requires Readable(gs) && gs != []
    ensures Render(gs) + s == RenderOne(gs[0]) + (Render(gs[1..]) + s)
    ensures |gs| > 1 && !gs[0].Plain? ==> Ends(Render(gs[1..]) + s)
  {
    Reassociate(RenderOne(gs[0]), Render(gs[1..]), s);
    if |gs| > 1 { EndsBehind(gs[1..], s); }
  }

  lemma EndsBehind(gs: seq<Segment>, s: string)
    requires gs != []
    ensures Ends(RenderOne(gs[0])) ==> Ends(Render(gs) + s)
  {
  }

  lemma ScanHead(g: Segment, s: string)
    requires Legible(g) && (!g.Plain? ==> s == [] || Ends(s))
    ensures Scan(RenderOne(g) + s) == TokenOf(g) + Scan(s)
  {
    match g
    case Plain(t) => SkipInert(t, s);
    case Quoted(t) =>
      DoubledMeaning(t);
      ScanQuoted(Meaning(t).value, s);
      Regroup(t, s);
    case Bind(n) => ScanPlaceholder(n, s);
  }

  lemma ScanOfRender(gs: seq<Segment>)
    requires Readable(gs)
    ensures Scan(Render(gs)) == TokensOf(gs)
  {
    ScanPrefix(gs, []);
    assert Render(gs) + [] == Render(gs);
  }

  /** A scanner takes nothing but identifiers for placeholders. */
  lemma {:induction false} PlaceholdersAreIdentifiers(s: string, name: string)
    requires Placeholder(name) in Scan(s)
    ensures Identifier(name)
    decreases |s|
  {
    if s[0] == QUOTE {
      PlaceholdersAreIdentifiers(ReadLiteralBody(s[1..]).value.1, name);
    } else if s[0] == ':' && NameLength(s[1..]) > 0 {
      var n := NameLength(s[1..]);
      if name == s[1..1 + n] {
        NameLengthIsName(s[1..]);
        assert s[1..][..n] == s[1..1 + n];
      } else {
        PlaceholdersAreIdentifiers(s[1 + n..], name);
      }
    } else {
      PlaceholdersAreIdentifiers(s[1..], name);
    }
  }

  lemma {:induction false} NameLengthIsName(s: string)
    ensures NameChars(s[..NameLength(s)])
  {
    if s != [] && NameChar(s[0]) {
      NameLengthIsName(s[1..]);
      assert s[..NameLength(s)][1..] == s[1..][..NameLength(s[1..])];
    }
  }

  // ---------- Literals that are not read as they were meant ----------

  function Quotes(s: string): nat {
    if s == [] then 0 else (if s[0] == QUOTE then 1 else 0) + Quotes(s[1..])
  }

  lemma {:induction false} QuotesOfConcat(s: string, t: string)
    ensures Quotes(s + t) == Quotes(s) + Quotes(t)
  {
    if s == [] {
      assert s + t == t;
    } else {
      assert (s + t)[1..] == s[1..] + t;
      QuotesOfConcat(s[1..], t);
    }
  }

  lemma {:induction false} QuotesOfDoubled(v: string)
    ensures Quotes(DoubleQuotes(v)) == 2 * Quotes(v) && |DoubleQuotes(v)| == |v| + Quotes(v)
  {
    if v != [] {
      QuotesOfDoubled(v[1..]);
      var head := if v[0] == QUOTE then [QUOTE, QUOTE] else [v[0]];
      QuotesOfConcat(head, DoubleQuotes(v[1..]));
      assert v[0] == QUOTE ==> head[1..] == [QUOTE];
    }
  }

  lemma {:induction false} QuotesBound(s: string)
    ensures Quotes(s) <= |s| && (Quotes(s) > 0 <==> QUOTE in s)
    ensures s != [] && s[0] != QUOTE ==> Quotes(s) < |s|
  {
    if s != [] { QuotesBound(s[1..]); }
  }

  /** A value with a quote that is not doubled is never read back, whatever text follows. */
  lemma UndoubledMisread(u: string, rest: string)
    requires QUOTE in u && (rest == [] || rest[0] != QUOTE)
    ensures var r := ReadLiteralBody(u + [QUOTE] + rest); r.Some? ==> r.value.0 != u
  {
    var text := u + [QUOTE] + rest;
    if ReadLiteralBody(text).Some? && ReadLiteralBody(text).value.0 == u {
      var r := ReadLiteralBody(text).value.1;
      var q := Quotes(u);
      ReadIsDoubled(text);
      QuotesOfDoubled(u);
      QuotesBound(u);
      assert text[..|u| + q + 1] == DoubleQuotes(u) + [QUOTE];
      assert text[..|u| + q + 1] == u + [QUOTE] + rest[..q];
      QuotesOfConcat(DoubleQuotes(u), [QUOTE]);
      QuotesOfConcat(u + [QUOTE], rest[..q]);
      QuotesOfConcat(u, [QUOTE]);
      QuotesBound(rest[..q]);
      assert false;
    }
  }

  /** Where such a value is quoted, the scanner does not see it. */
  lemma MisreadHere(u: string, rest: string)
    requires QUOTE in u && (rest == [] || rest[0] != QUOTE)
    ensures var tokens := Scan([QUOTE] + (u + [QUOTE] + rest)); tokens != [] && tokens[0] != Literal(u)
  {
    var body := u + [QUOTE] + rest;
    UndoubledMisread(u, rest);
    assert ([QUOTE] + body)[1..] == body;
    if ReadLiteralBody(body).Some? { ScanLiteral(body); }
  }

  lemma Reassociate(a: string, b: string, c: string)
    ensures a + b + c == a + (b + c)
  {
  }

  /** The text of one segment more. */
  lemma RenderInto(g: Segment, gs: seq<Segment>, tail: string)
    ensures Render([g] + gs) + tail == RenderOne(g) + (Render(gs) + tail)
  {
    assert ([g] + gs)[1..] == gs;
  }

  lemma RenderQuotedInto(t: string, gs: seq<Segment>, tail: string)
    ensures Render([Quoted(t)] + gs) + tail == [QUOTE] + (t + [QUOTE] + (Render(gs) + tail))
  {
    RenderInto(Quoted(t), gs, tail);
    Regroup(t, Render(gs) + tail);
  }

  /** The placeholders that the scanner finds. */
  function Found(s: string): set<string> {
    set t | t in Scan(s) && t.Placeholder? :: t.name
  }

  lemma {:induction false} BindsAreTokens(gs: seq<Segment>, name: string)
    requires Readable(gs)
    ensures Placeholder(name) in TokensOf(gs) <==> name in BindNames(gs)
  {
    if gs != [] {
      BindsAreTokens(gs[1..], name);
      assert Placeholder(name) in TokenOf(gs[0]) <==> name in BindName(gs[0]);
    }
  }

  /** The scanner finds exactly the placeholders that were written. */
  lemma FoundIsWritten(gs: seq<Segment>)
    requires Readable(gs)
    ensures Found(Render(gs)) == BindNames(gs)
  {
    ScanOfRender(gs);
    forall name ensures name in Found(Render(gs)) <==> name in BindNames(gs) {
      BindsAreTokens(gs, name);
      assert name in Found(Render(gs)) <==> Placeholder(name) in TokensOf(gs);
    }
  }

  // ---------- Splitting at commas ----------

  /** strings.Split(s, ", "). */
  function SplitCommas(s: string): (r: seq<string>)
    ensures r != []
    decreases |s|
  {
    if s == [] then [[]]
    else if |s| > 1 && s[0] == ',' && s[1] == ' ' then [[]] + SplitCommas(s[2..])
    else
      var r := SplitCommas(s[1..]);
      [[s[0]] + r[0]] + r[1..]
  }

  /** There is a ", " in the text. */
  predicate Splits(s: string) {
    |s| > 1 && ((s[0] == ',' && s[1] == ' ') || Splits(s[1..]))
  }

  lemma {:induction false} SplitExactly(s: string)
    ensures !Splits(s) <==> SplitCommas(s) == [s]
    ensures Splits(s) <==> |SplitCommas(s)| > 1
    decreases |s|
  {
    if s != [] {
      SplitExactly(s[1..]);
      assert s == [s[0]] + s[1..];
    }
  }

  /** A separator between two texts separates what they split into. */
  lemma SplitOfConcat(t: string, s: string)
    ensures SplitCommas(t + ", " + s) == SplitCommas(t) + SplitCommas(s)
  {
    assert t + ", " + s == t + (", " + s) && (", " + s)[2..] == s;
    SplitBefore(t, ", " + s);
  }

  lemma SplitCons(c: char, s: string)
    requires c == ',' ==> s == [] || s[0] != ' '
    ensures SplitCommas([c] + s) == [[c] + SplitCommas(s)[0]] + SplitCommas(s)[1..]
  {
    assert ([c] + s)[1..] == s;
  }

  lemma SplitStep(c: char, head: string, tail: string)
    requires (c == ',' ==> head == [] || head[0] != ' ') && |tail| > 1 && tail[0] == ','
    requires SplitCommas(head + tail) == SplitCommas(head) + SplitCommas(tail[2..])
    ensures SplitCommas([c] + (head + tail)) == SplitCommas([c] + head) + SplitCommas(tail[2..])
  {
    assert (head + tail)[0] == if head != [] then head[0] else ',';
    SplitCons(c, head);
    SplitCons(c, head + tail);
    FirstPiece(SplitCommas(head), SplitCommas(tail[2..]), c);
  }

  lemma {:induction false} SplitBefore(t: string, tail: string)
    requires |tail| > 1 && tail[0] == ',' && tail[1] == ' '
    ensures SplitCommas(t + tail) == SplitCommas(t) + SplitCommas(tail[2..])
    decreases |t|
  {
    if t == [] {
      assert t + tail == tail;
    } else if |t| > 1 && t[0] == ',' && t[1] == ' ' {
      SplitBefore(t[2..], tail);
      assert (t + tail)[2..] == t[2..] + tail;
    } else {
      SplitBefore(t[1..], tail);
      SplitStep(t[0], t[1..], tail);
      assert t == [t[0]] + t[1..];
      Reassociate([t[0]], t[1..], tail);
    }
  }

  lemma FirstPiece(a: seq<string>, b: seq<string>, c: char)
    requires a != []
    ensures [[c] + (a + b)[0]] + (a + b)[1..] == ([[c] + a[0]] + a[1..]) + b
  {
  }

  /** Unless a comma is last, a separator in two texts is in one of them. */
  lemma {:induction false} SplitsOfConcat(t: string, s: string)
    ensures Splits(t) || Splits(s) ==> Splits(t + s)
    ensures t != [] && t[|t| - 1] != ',' ==> (Splits(t + s) <==> Splits(t) || Splits(s))
    decreases |t|
  {
    if t == [] {
      assert t + s == s;
    } else {
      assert (t + s)[1..] == t[1..] + s;
      SplitsOfConcat(t[1..], s);
      if |t| == 1 { assert t[1..] + s == s; }
    }
  }
}
