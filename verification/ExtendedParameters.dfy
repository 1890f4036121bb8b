/** The lines of the set part for the parameters of a request as a whole: how many, their names, their values. */
module ExtendedParameters {
  import opened StatementText
  import opened StatementParts
  import opened StatementReading
  import Text

  const NAME_TARGET := "  l_ext_param_name"
  const VALUE_TARGET := "  l_ext_param_val"

  const COUNT_TARGET := "  l_num_ext_params"

  function CountLine(n: nat): seq<Segment> {
    [Plain(COUNT_TARGET + " := " + Text.Decimal(n) + ";\n")]
  }

  function ExtLine(target: string, i: nat, text: string): seq<Segment> {
    [Plain(target + Index(i) + " := "), Quoted(text), Plain(";\n")]
  }

  /** One line for each text, counted from one. */
  function Lines(target: string, texts: seq<string>): seq<Segment> {
    if texts == [] then []
    else Lines(target, texts[..|texts| - 1]) + ExtLine(target, |texts| - 1, texts[|texts| - 1])
  }

  function Uppers(names: seq<string>): seq<string> {
    if names == [] then [] else Uppers(names[..|names| - 1]) + [Text.ToUpper(names[|names| - 1])]
  }

  function Doubled(values: seq<string>): seq<string> {
    if values == [] then [] else Doubled(values[..|values| - 1]) + [DoubleQuotes(values[|values| - 1])]
  }

  function NameLines(names: seq<string>): seq<Segment> { Lines(NAME_TARGET, Uppers(names)) }

  function ValueLines(values: seq<string>): seq<Segment> { Lines(VALUE_TARGET, Doubled(values)) }

  /** All the lines: names are quoted as they are, values with their quotes doubled. */
  function ExtLines(names: seq<string>, values: seq<string>): seq<Segment> {
    CountLine(|names|) + NameLines(names) + ValueLines(values)
  }

  function Literals(values: seq<string>): seq<Token> {
    if values == [] then [] else Literals(values[..|values| - 1]) + [Literal(values[|values| - 1])]
  }

  lemma {:induction false} UppersAt(names: seq<string>)
    ensures |Uppers(names)| == |names| && forall i | 0 <= i < |names| :: Uppers(names)[i] == Text.ToUpper(names[i])
  {
    if names != [] { UppersAt(names[..|names| - 1]); }
  }

  lemma {:induction false} DoubledAt(values: seq<string>)
    ensures |Doubled(values)| == |values|
    ensures forall i | 0 <= i < |values| :: Doubled(values)[i] == DoubleQuotes(values[i])
  {
    if values != [] { DoubledAt(values[..|values| - 1]); }
  }

  // ---------- Lines that can be read ----------

  lemma HeadIsInert(target: string, i: nat)
    requires Inert(target)
    ensures Inert(target + Index(i) + " := ")
  {
    IndexIsInert(i);
    InertConcat(target, Index(i));
    InertConcat(target + Index(i), " := ");
  }

  lemma TargetsAreQuiet(target: string)
    requires target == NAME_TARGET || target == VALUE_TARGET || target == COUNT_TARGET
    ensures forall i | 0 <= i < |target| :: target[i] != QUOTE && target[i] != ':'
  {
  }

  lemma TargetIsInert(target: string)
    requires target == NAME_TARGET || target == VALUE_TARGET || target == COUNT_TARGET
    ensures Inert(target)
  {
    TargetsAreQuiet(target);
    QuietByIndex(target);
    QuietIsInert(target);
  }

  lemma ThreeRead(a: Segment, b: Segment, c: Segment)
    requires a.Plain? && b.Quoted? && c.Plain? && Legible(a) && Legible(b) && Legible(c) && Ends(c.text)
    ensures Closed([a, b, c]) && TokensOf([a, b, c]) == TokenOf(b)
  {
    ReadablePair(a, b);
    ReadableSingle(c);
    ReadableConcat([a, b], [c]);
    assert [a, b] + [c] == [a, b, c];
  }

  lemma ExtLineReads(target: string, i: nat, text: string)
    requires Inert(target) && Meaning(text).Some?
    ensures Closed(ExtLine(target, i, text)) && TokensOf(ExtLine(target, i, text)) == [Literal(Meaning(text).value)]
  {
    HeadIsInert(target, i);
    ThreeRead(Plain(target + Index(i) + " := "), Quoted(text), Plain(";\n"));
  }

  lemma {:induction false} LinesRead(target: string, texts: seq<string>, values: seq<string>)
    requires Inert(target) && |texts| == |values|
    requires forall i | 0 <= i < |texts| :: Meaning(texts[i]).Some? && Meaning(texts[i]).value == values[i]
    ensures Closed(Lines(target, texts)) && TokensOf(Lines(target, texts)) == Literals(values)
  {
    if texts != [] {
      var n := |texts| - 1;
      LinesRead(target, texts[..n], values[..n]);
      ExtLineReads(target, n, texts[n]);
      ClosedConcat(Lines(target, texts[..n]), ExtLine(target, n, texts[n]));
    }
  }

  lemma PlainLinesRead(target: string, texts: seq<string>)
    requires Inert(target) && forall j | 0 <= j < |texts| :: QUOTE !in texts[j]
    ensures Closed(Lines(target, texts)) && TokensOf(Lines(target, texts)) == Literals(texts)
  {
    forall i | 0 <= i < |texts| ensures Meaning(texts[i]).Some? && Meaning(texts[i]).value == texts[i] {
      MeaningOfDoubled(texts[i]);
    }
    LinesRead(target, texts, texts);
  }

  lemma NamesRead(names: seq<string>)
    requires forall j | 0 <= j < |names| :: QUOTE !in names[j]
    ensures Closed(NameLines(names)) && TokensOf(NameLines(names)) == Literals(Uppers(names))
  {
    UppersAt(names);
    forall j | 0 <= j < |names| ensures QUOTE !in Uppers(names)[j] { UpperKeepsQuotes(names[j]); }
    TargetIsInert(NAME_TARGET);
    PlainLinesRead(NAME_TARGET, Uppers(names));
  }

  lemma ValuesRead(values: seq<string>)
    ensures Closed(ValueLines(values)) && TokensOf(ValueLines(values)) == Literals(values)
  {
    DoubledAt(values);
    forall i | 0 <= i < |values|
      ensures Meaning(Doubled(values)[i]).Some? && Meaning(Doubled(values)[i]).value == values[i]
    {
      MeaningOfDoubled(values[i]);
    }
    TargetIsInert(VALUE_TARGET);
    LinesRead(VALUE_TARGET, Doubled(values), values);
  }

  lemma CountReads(n: nat)
    ensures Closed(CountLine(n)) && TokensOf(CountLine(n)) == []
  {
    TargetIsInert(COUNT_TARGET);
    CountIsInert(COUNT_TARGET, n);
    ReadableSingle(CountLine(n)[0]);
  }

  lemma CountIsInert(target: string, n: nat)
    requires Inert(target)
    ensures Inert(target + " := " + Text.Decimal(n) + ";\n")
  {
    DecimalIsQuiet(n);
    QuietIsInert(Text.Decimal(n));
    InertConcat(target, " := ");
    InertConcat(target + " := ", Text.Decimal(n));
    InertConcat(target + " := " + Text.Decimal(n), ";\n");
  }

  lemma ThreeParts(a: seq<Segment>, b: seq<Segment>, c: seq<Segment>)
    requires Closed(a) && Closed(b) && Closed(c) && TokensOf(a) == []
    ensures Closed(a + b + c) && TokensOf(a + b + c) == TokensOf(b) + TokensOf(c)
  {
    ClosedConcat(a, b);
    ClosedConcat(a + b, c);
  }

  lemma GoodTokens(names: seq<string>, values: seq<string>)
    requires forall name <- names :: QUOTE !in name
    ensures Closed(ExtLines(names, values))
    ensures TokensOf(ExtLines(names, values)) == Literals(Uppers(names)) + Literals(values)
  {
    CountReads(|names|);
    NamesRead(names);
    ValuesRead(values);
    ThreeParts(CountLine(|names|), NameLines(names), ValueLines(values));
  }

  // ---------- Lines that cannot ----------

  lemma RenderExtLine(head: string, text: string, tail: string)
    ensures Render([Plain(head), Quoted(text), Plain(";\n")]) + tail ==
      head + ([QUOTE] + (text + [QUOTE] + (";\n" + tail)))
  {
    var a, b, c := Plain(head), Quoted(text), Plain(";\n");
    assert [a, b, c] == [a] + ([b] + [c]);
    RenderInto(a, [b] + [c], tail);
    RenderQuotedInto(text, [c], tail);
    RenderSingle(c);
  }

  /** A text with a quote, quoted without doubling, is misread, whatever follows. */
  lemma LineMisread(target: string, i: nat, text: string, tail: string)
    requires Inert(target) && QUOTE in text
    ensures Misread(Render(ExtLine(target, i, text)) + tail, [Literal(text)])
  {
    var head, rest := target + Index(i) + " := ", ";\n" + tail;
    HeadIsInert(target, i);
    RenderExtLine(head, text, tail);
    SkipInert(head, [QUOTE] + (text + [QUOTE] + rest));
    MisreadHere(text, rest);
    assert Differs(Scan([QUOTE] + (text + [QUOTE] + rest)), [Literal(text)], 0);
  }

  lemma LastLine(target: string, texts: seq<string>, tail: string)
    requires texts != []
    ensures var n := |texts| - 1;
      Render(Lines(target, texts)) + tail ==
      Render(Lines(target, texts[..n])) + (Render(ExtLine(target, n, texts[n])) + tail)
  {
    var n := |texts| - 1;
    RenderConcat(Lines(target, texts[..n]), ExtLine(target, n, texts[n]));
    Reassociate(Render(Lines(target, texts[..n])), Render(ExtLine(target, n, texts[n])), tail);
  }

  /** The first bad text is where the scan goes wrong. */
  lemma {:induction false} LinesMisread(target: string, texts: seq<string>, i: nat, tail: string)
    requires Inert(target) && i < |texts| && QUOTE in texts[i] && forall j | 0 <= j < i :: QUOTE !in texts[j]
    ensures Misread(Render(Lines(target, texts)) + tail, Literals(texts))
    decreases |texts|
  {
    var n := |texts| - 1;
    var before, rest := Lines(target, texts[..n]), Render(ExtLine(target, n, texts[n])) + tail;
    LastLine(target, texts, tail);
    if i < n {
      LinesMisread(target, texts[..n], i, rest);
      MisreadBefore(Render(before) + rest, Literals(texts[..n]), [Literal(texts[n])]);
    } else {
      PlainLinesRead(target, texts[..n]);
      LineMisread(target, n, texts[n], tail);
      MisreadBehind(before, rest, [Literal(texts[n])]);
    }
  }

  lemma NamesMisread(names: seq<string>, i: nat, tail: string)
    requires i < |names| && QUOTE in names[i] && forall j | 0 <= j < i :: QUOTE !in names[j]
    ensures Misread(Render(NameLines(names)) + tail, Literals(Uppers(names)))
  {
    UppersAt(names);
    forall j | 0 <= j <= i ensures QUOTE in Uppers(names)[j] <==> QUOTE in names[j] { UpperKeepsQuotes(names[j]); }
    TargetIsInert(NAME_TARGET);
    LinesMisread(NAME_TARGET, Uppers(names), i, tail);
  }

  lemma {:induction false} FirstBadName(names: seq<string>) returns (i: nat)
    requires exists name <- names :: QUOTE in name
    ensures i < |names| && QUOTE in names[i] && forall j | 0 <= j < i :: QUOTE !in names[j]
  {
    if QUOTE in names[0] {
      i := 0;
    } else {
      assert names == [names[0]] + names[1..];
      i := FirstBadName(names[1..]);
      i := i + 1;
    }
  }

  lemma BadTokens(names: seq<string>, values: seq<string>, tail: string)
    requires exists name <- names :: QUOTE in name
    ensures Misread(Render(ExtLines(names, values)) + tail, Literals(Uppers(names)) + Literals(values))
  {
    var i := FirstBadName(names);
    var count, lines, rest := CountLine(|names|), NameLines(names), Render(ValueLines(values)) + tail;
    CountReads(|names|);
    NamesMisread(names, i, rest);
    MisreadBehind(count, Render(lines) + rest, Literals(Uppers(names)));
    assert TokensOf(count) + Literals(Uppers(names)) == Literals(Uppers(names));
    RenderExtLines(names, values, tail);
    MisreadBefore(Render(ExtLines(names, values)) + tail, Literals(Uppers(names)), Literals(values));
  }

  lemma RenderExtLines(names: seq<string>, values: seq<string>, tail: string)
    ensures Render(ExtLines(names, values)) + tail ==
      Render(CountLine(|names|)) + (Render(NameLines(names)) + (Render(ValueLines(values)) + tail))
  {
    var count, lines := CountLine(|names|), NameLines(names);
    RenderConcat(count, lines);
    RenderConcat(count + lines, ValueLines(values));
    Reassociate(Render(count) + Render(lines), Render(ValueLines(values)), tail);
    Reassociate(Render(count), Render(lines), Render(ValueLines(values)) + tail);
  }

  /** A scanner reads from these lines the names in upper case and then the values as they were, each in
      order, exactly when no name has a quote. */
  lemma ExtTokens(names: seq<string>, values: seq<string>)
    ensures Scan(Render(ExtLines(names, values))) == Literals(Uppers(names)) + Literals(values) <==>
      forall name <- names :: QUOTE !in name
  {
    if forall name <- names :: QUOTE !in name {
      GoodTokens(names, values);
      ScanOfRender(ExtLines(names, values));
    } else {
      BadTokens(names, values, []);
      assert Render(ExtLines(names, values)) + [] == Render(ExtLines(names, values));
    }
  }
}
