/**
 `fixMeta`: the response body's charset declarations are replaced, one pattern after the other. A
 character of a string stands for a byte here.
 */
module MetaCharset {

  /** A `meta` element: the content type and the charset as they are spelt in it. */
  function Meta(contentType: string, charset: string): string {
    "<" + "meta http-equiv=" + contentType + " content=\"text/html; " + charset + "\"" + ">"
  }

  const BMETA: seq<string> := [
    Meta("\"Content-Type\"", "charset=windows-1251"),
    Meta("Content-Type", "charset=windows-1251"),
    Meta("\"CONTENT-TYPE", "charset=windows-1251"),
    Meta("\"Content-Type\"", "charset=windows-1251")]

  const BMETA_EMPTY: string := Meta("\"Content-Type\"", "charset=utf-8")

  /** Opens with `<`, closes with `>`, and has neither in between. */
  predicate Tag(p: string) {
    && |p| >= 2 && p[0] == '<' && p[|p| - 1] == '>'
    && forall i | 0 < i < |p| - 1 :: p[i] != '<' && p[i] != '>'
  }

  /** bytes.Replace(s, old, new, -1): non-overlapping occurrences from the left. */
  function Replace(s: string, old_: string, new_: string): string
    requires old_ != []
    decreases |s|
  {
    if s == [] then []
    else if old_ <= s then new_ + Replace(s[|old_|..], old_, new_)
    else [s[0]] + Replace(s[1..], old_, new_)
  }

  /** The first of the patterns that `s` begins with, or the empty string. */
  function Match(ps: seq<string>, s: string): (p: string)
    ensures p <= s && (p != [] ==> p in ps)
    ensures p == [] ==> forall q <- ps :: q != [] ==> !(q <= s)
  {
    if ps == [] then []
    else if ps[0] != [] && ps[0] <= s then ps[0]
    else
      assert forall q <- ps :: q == ps[0] || q in ps[1..];
      Match(ps[1..], s)
  }

  /** One scan from the left that replaces whichever pattern it meets and copies everything else. */
  function ReplaceAny(ps: seq<string>, s: string, new_: string): string
    decreases |s|
  {
    if s == [] then []
    else
      var p := Match(ps, s);
      if p != [] then new_ + ReplaceAny(ps, s[|p|..], new_)
      else [s[0]] + ReplaceAny(ps, s[1..], new_)
  }

  predicate Tags(ps: seq<string>, new_: string) {
    (forall p <- ps :: Tag(p) && p != new_) && Tag(new_)
  }

  /** A tag ends where the first `>` of the text it opens is. */
  lemma TagEnd(p: string, s: string)
    requires Tag(p) && p <= s
    ensures s[|p| - 1] == '>' && forall i | 0 < i < |p| - 1 :: s[i] != '>'
  {
    assert forall i | 0 < i < |p| :: s[i] == p[i];
  }

  lemma TagsOfOneText(p: string, q: string, s: string)
    requires Tag(p) && Tag(q) && p <= s && q <= s
    ensures p == q
  {
    TagEnd(p, s);
    TagEnd(q, s);
    assert |p| == |q|;
  }

  lemma HeadOfScan(ps: seq<string>, s: string, new_: string)
    requires Tags(ps, new_) && s != []
    ensures ReplaceAny(ps, s, new_) != []
    ensures ReplaceAny(ps, s, new_)[0] == if Match(ps, s) != [] then '<' else s[0]
  {
  }

  /** Text without `<` in the result of a scan was there before the scan. */
  lemma {:induction false} KeptText(ps: seq<string>, s: string, new_: string, t: string)
    requires Tags(ps, new_) && '<' !in t && t <= ReplaceAny(ps, s, new_)
    ensures t <= s
    decreases |t|
  {
    if t != [] {
      assert t[0] in t;
      HeadOfScan(ps, s, new_);
      assert t[1..] <= ReplaceAny(ps, s[1..], new_);
      KeptText(ps, s[1..], new_, t[1..]);
      assert t == [t[0]] + t[1..] && s == [s[0]] + s[1..];
    }
  }

  /** A tag at the head of a scan's result, if it is not the replacement, was at the head before. */
  lemma KeptTag(ps: seq<string>, s: string, new_: string, t: string)
    requires Tags(ps, new_) && Tag(t) && t != new_ && t <= ReplaceAny(ps, s, new_)
    ensures t <= s && Match(ps, s) == []
  {
    var p := Match(ps, s);
    if p != [] {
      assert new_ <= ReplaceAny(ps, s, new_);
      TagsOfOneText(t, new_, ReplaceAny(ps, s, new_));
    }
    var tail := t[1..];
    assert forall i | 0 <= i < |tail| :: tail[i] == t[i + 1] && tail[i] != '<';
    assert tail <= ReplaceAny(ps, s[1..], new_);
    KeptText(ps, s[1..], new_, tail);
    assert t == [t[0]] + tail && s == [s[0]] + s[1..];
  }

  lemma NoTagHere(ps: seq<string>, s: string, new_: string)
    requires Tags(ps, new_) && s != [] && s[0] != '<'
    ensures Match(ps, s) == []
  {
    forall p <- ps ensures !(p <= s) {
      assert p[0] == '<';
    }
  }

  /** Text without `<` is copied by a scan. */
  lemma {:induction false} CopyText(ps: seq<string>, t: string, s: string, new_: string)
    requires Tags(ps, new_) && '<' !in t
    ensures ReplaceAny(ps, t + s, new_) == t + ReplaceAny(ps, s, new_)
    decreases |t|
  {
    if t == [] {
      assert t + s == s;
    } else {
      assert t[0] in t;
      NoTagHere(ps, t + s, new_);
      CopyText(ps, t[1..], s, new_);
      CopyHead(ps, t, s, new_);
    }
  }

  lemma Consed(a: string, y: string)
    requires a != []
    ensures [a[0]] + (a[1..] + y) == a + y
  {
  }

  /** A head that no pattern begins with is copied. */
  lemma CopyHead(ps: seq<string>, t: string, s: string, new_: string)
    requires t != [] && Match(ps, t + s) == []
    requires ReplaceAny(ps, t[1..] + s, new_) == t[1..] + ReplaceAny(ps, s, new_)
    ensures ReplaceAny(ps, t + s, new_) == t + ReplaceAny(ps, s, new_)
  {
    assert (t + s)[0] == t[0] && (t + s)[1..] == t[1..] + s;
    Consed(t, ReplaceAny(ps, s, new_));
  }

  /** A tag that is none of the patterns is copied by a scan. */
  lemma CopyTag(ps: seq<string>, t: string, s: string, new_: string)
    requires Tags(ps, new_) && Tag(t) && t !in ps
    ensures ReplaceAny(ps, t + s, new_) == t + ReplaceAny(ps, s, new_)
  {
    var p := Match(ps, t + s);
    if p != [] { TagsOfOneText(p, t, t + s); }
    assert forall i | 0 <= i < |t[1..]| :: t[1..][i] == t[i + 1];
    CopyText(ps, t[1..], s, new_);
    CopyHead(ps, t, s, new_);
  }

  lemma {:induction false} ReplaceIsReplaceAny(s: string, p: string, new_: string)
    requires p != []
    ensures Replace(s, p, new_) == ReplaceAny([p], s, new_)
    decreases |s|
  {
    if s != [] {
      assert Match([p], s) == (if p <= s then p else []) by { assert Match([p][1..], s) == []; }
      if p <= s { ReplaceIsReplaceAny(s[|p|..], p, new_); } else { ReplaceIsReplaceAny(s[1..], p, new_); }
    }
  }

  lemma {:induction false} MatchOneMore(ps: seq<string>, p: string, s: string)
    requires p != []
    ensures Match(ps + [p], s) == if Match(ps, s) != [] then Match(ps, s) else if p <= s then p else []
  {
    if ps == [] {
      assert ps + [p] == [p] && [p][1..] == [];
    } else {
      assert (ps + [p])[1..] == ps[1..] + [p];
      MatchOneMore(ps[1..], p, s);
    }
  }

  /** Replacing one more pattern afterwards is the same as scanning for it at once: no replacement
      ever completes an occurrence of another pattern. */
  lemma {:induction false} ReplaceAfterScan(ps: seq<string>, p: string, s: string, new_: string)
    requires Tags(ps, new_) && Tag(p) && p != new_
    ensures ReplaceAny([p], ReplaceAny(ps, s, new_), new_) == ReplaceAny(ps + [p], s, new_)
    decreases |s|
  {
    if s != [] {
      MatchOneMore(ps, p, s);
      var q, scanned := Match(ps, s), ReplaceAny(ps, s, new_);
      if q != [] {
        ReplaceAfterScan(ps, p, s[|q|..], new_);
        CopyTag([p], new_, ReplaceAny(ps, s[|q|..], new_), new_);
      } else if p <= s {
        var rest := s[|p|..];
        assert s == p + rest && p !in ps;
        CopyTag(ps, p, rest, new_);
        ReplaceAfterScan(ps, p, rest, new_);
        assert Match([p], p + ReplaceAny(ps, rest, new_)) == p;
        assert (p + ReplaceAny(ps, rest, new_))[|p|..] == ReplaceAny(ps, rest, new_);
      } else {
        if p <= scanned { KeptTag(ps, s, new_, p); }
        assert Match([p], scanned) == [] by { assert Match([p][1..], scanned) == []; }
        assert scanned[1..] == ReplaceAny(ps, s[1..], new_);
        ReplaceAfterScan(ps, p, s[1..], new_);
      }
    }
  }

  predicate Plain(s: string) {
    forall i | 0 <= i < |s| :: s[i] != '<' && s[i] != '>'
  }

  lemma MetaIsTag(contentType: string, charset: string)
    requires Plain(contentType) && Plain(charset)
    ensures Tag(Meta(contentType, charset)) && |Meta(contentType, charset)| == 40 + |contentType| + |charset|
  {
    var body := "meta http-equiv=" + contentType + " content=\"text/html; " + charset + "\"";
    assert Plain("meta http-equiv=") && Plain(" content=\"text/html; ") && Plain("\"");
    assert Plain(body);
    assert Meta(contentType, charset) == "<" + body + ">";
  }

  lemma BMetaTags()
    ensures Tags(BMETA, BMETA_EMPTY)
  {
    MetaIsTag("\"Content-Type\"", "charset=windows-1251");
    MetaIsTag("Content-Type", "charset=windows-1251");
    MetaIsTag("\"CONTENT-TYPE", "charset=windows-1251");
    MetaIsTag("\"Content-Type\"", "charset=utf-8");
  }

  lemma ReplaceStep(content: string, patterns: seq<string>, k: nat, new_: string)
    requires Tags(patterns, new_) && k < |patterns|
    ensures patterns[k] != []
    ensures Replace(ReplaceAny(patterns[..k], content, new_), patterns[k], new_)
         == ReplaceAny(patterns[..k + 1], content, new_)
  {
    assert patterns[k] in patterns && forall p <- patterns[..k] :: p in patterns;
    ReplaceIsReplaceAny(ReplaceAny(patterns[..k], content, new_), patterns[k], new_);
    ReplaceAfterScan(patterns[..k], patterns[k], content, new_);
    assert patterns[..k] + [patterns[k]] == patterns[..k + 1];
  }

  /** The loop of `fixMeta`, on any list of tags: replacing pattern after pattern is one simultaneous
      replacement of all of them. */
  method ReplaceEach(content: string, patterns: seq<string>, new_: string) returns (buf: string)
    requires Tags(patterns, new_)
    ensures buf == ReplaceAny(patterns, content, new_)
  {
    buf := content;
    NothingToReplace([], content, new_);
    for k := 0 to |patterns|
      invariant buf == ReplaceAny(patterns[..k], content, new_)
    {
      ReplaceStep(content, patterns, k, new_);
      buf := Replace(buf, patterns[k], new_);
    }
    assert patterns[..|patterns|] == patterns;
  }

  method FixMeta(content: string) returns (buf: string)
    ensures buf == ReplaceAny(BMETA, content, BMETA_EMPTY)
  {
    BMetaTags();
    buf := ReplaceEach(content, BMETA, BMETA_EMPTY);
  }

  /** A declaration of the given content type and character set, as it stands in a page. */
  function Declaration(contentType: string, charset: string): string {
    "<meta http-equiv=" + contentType + " content=\"text/html; charset=" + charset + "\">"
  }

  lemma MetaText(contentType: string, charset: string)
    ensures Meta(contentType, "charset=" + charset) == Declaration(contentType, charset)
  {
    assert "<" + "meta http-equiv=" == "<meta http-equiv=";
    assert " content=\"text/html; " + "charset=" == " content=\"text/html; charset=";
    assert "\"" + ">" == "\">";
    FiveParts("<meta http-equiv=", contentType, " content=\"text/html; ", "charset=", charset, "\"", ">");
  }

  lemma FiveParts(a: string, b: string, c: string, d: string, e: string, f: string, g: string)
    ensures a + b + c + (d + e) + f + g == a + b + (c + d) + e + (f + g)
  {
  }

  /** What is replaced are the declarations of windows-1251 in three spellings, and utf-8 takes its place. */
  lemma Declarations(p: string)
    ensures p in BMETA <==>
      exists t | t in ["\"Content-Type\"", "Content-Type", "\"CONTENT-TYPE"] :: p == Declaration(t, "windows-1251")
    ensures BMETA_EMPTY == Declaration("\"Content-Type\"", "utf-8")
  {
    assert "charset=" + "windows-1251" == "charset=windows-1251" && "charset=" + "utf-8" == "charset=utf-8";
    MetaText("\"Content-Type\"", "windows-1251");
    MetaText("Content-Type", "windows-1251");
    MetaText("\"CONTENT-TYPE", "windows-1251");
    MetaText("\"Content-Type\"", "utf-8");
  }

  lemma MatchHere(ps: seq<string>, p: string, b: string, new_: string)
    requires Tags(ps, new_) && p in ps
    ensures Match(ps, p + b) == p
  {
    assert p <= p + b;
    TagsOfOneText(p, Match(ps, p + b), p + b);
  }

  lemma NoMatchHere(ps: seq<string>, c: char, s: string, new_: string)
    requires Tags(ps, new_) && c != '<'
    ensures ReplaceAny(ps, [c] + s, new_) == [c] + ReplaceAny(ps, s, new_)
  {
    forall p | p in ps ensures !(p <= [c] + s) { assert p[0] == '<' != ([c] + s)[0]; }
    assert ([c] + s)[1..] == s;
  }

  /** One of them, behind text without a tag, is replaced, and the rest is scanned behind it. */
  lemma {:induction false} TagReplaced(ps: seq<string>, a: string, p: string, b: string, new_: string)
    requires Tags(ps, new_) && '<' !in a && p in ps
    ensures ReplaceAny(ps, a + (p + b), new_) == a + (new_ + ReplaceAny(ps, b, new_))
    decreases |a|
  {
    if a == [] {
      MatchHere(ps, p, b, new_);
      assert a + (p + b) == p + b && (p + b)[|p|..] == b;
      assert a + (new_ + ReplaceAny(ps, b, new_)) == new_ + ReplaceAny(ps, b, new_);
    } else {
      TagReplaced(ps, a[1..], p, b, new_);
      NoMatchHere(ps, a[0], a[1..] + (p + b), new_);
      Consed(a, p + b);
      Consed(a, new_ + ReplaceAny(ps, b, new_));
    }
  }

  lemma DeclarationReplaced(a: string, p: string, b: string)
    requires '<' !in a && p in BMETA
    ensures ReplaceAny(BMETA, a + (p + b), BMETA_EMPTY) == a + (BMETA_EMPTY + ReplaceAny(BMETA, b, BMETA_EMPTY))
  {
    BMetaTags();
    TagReplaced(BMETA, a, p, b, BMETA_EMPTY);
  }

  predicate Occurs(p: string, s: string) {
    exists i | 0 <= i <= |s| :: p <= s[i..]
  }

  lemma {:induction false} NothingToReplace(ps: seq<string>, s: string, new_: string)
    requires forall p <- ps :: p != [] ==> !Occurs(p, s)
    ensures ReplaceAny(ps, s, new_) == s
    decreases |s|
  {
    if s != [] {
      assert s[0..] == s;
      assert forall i | 0 <= i <= |s[1..]| :: s[1..][i..] == s[i + 1..];
      NothingToReplace(ps, s[1..], new_);
    }
  }

  /** No tag begins inside another one. */
  lemma NoTagInside(t: string, rest: string, p: string, i: nat)
    requires Tag(t) && Tag(p) && 0 < i < |t|
    ensures !(p <= (t + rest)[i..])
  {
    assert (t + rest)[i..][0] == t[i] != '<';
  }

  /** No pattern occurs in the result of a scan. */
  lemma {:induction false} NoPatternLeft(ps: seq<string>, s: string, new_: string, p: string)
    requires Tags(ps, new_) && p in ps
    ensures !Occurs(p, ReplaceAny(ps, s, new_))
    decreases |s|
  {
    var out := ReplaceAny(ps, s, new_);
    if i :| 0 <= i <= |out| && p <= out[i..] {
      if i == 0 {
        KeptTag(ps, s, new_, p);
      } else if Match(ps, s) == [] {
        assert out[i..] == ReplaceAny(ps, s[1..], new_)[i - 1..];
        NoPatternLeft(ps, s[1..], new_, p);
      } else if i >= |new_| {
        var rest := s[|Match(ps, s)|..];
        assert out[i..] == ReplaceAny(ps, rest, new_)[i - |new_|..];
        NoPatternLeft(ps, rest, new_, p);
      } else {
        NoTagInside(new_, ReplaceAny(ps, s[|Match(ps, s)|..], new_), p, i);
      }
    }
  }

  /** fixMeta leaves none of its patterns behind. */
  lemma FixMetaRemovesPatterns(content: string, p: string)
    requires p in BMETA
    ensures !Occurs(p, ReplaceAny(BMETA, content, BMETA_EMPTY))
  {
    BMetaTags();
    NoPatternLeft(BMETA, content, BMETA_EMPTY, p);
  }

  /** Fixing a fixed body changes nothing. */
  lemma FixMetaIdempotent(content: string)
    ensures var fixed := ReplaceAny(BMETA, content, BMETA_EMPTY); ReplaceAny(BMETA, fixed, BMETA_EMPTY) == fixed
  {
    BMetaTags();
    var fixed := ReplaceAny(BMETA, content, BMETA_EMPTY);
    forall p <- BMETA ensures !Occurs(p, fixed) {
      NoPatternLeft(BMETA, content, BMETA_EMPTY, p);
    }
    NothingToReplace(BMETA, fixed, BMETA_EMPTY);
  }

  // ---------- What is kept ----------

  /** A stretch of the body: text that is kept, or an occurrence of a pattern. */
  datatype Piece = Kept(text: string) | Pattern(p: string)

  /** What a piece was in the body. */
  function TextOf(piece: Piece): string {
    match piece
    case Kept(t) => t
    case Pattern(p) => p
  }

  function Before(pieces: seq<Piece>): string {
    if pieces == [] then [] else TextOf(pieces[0]) + Before(pieces[1..])
  }

  function After(pieces: seq<Piece>, new_: string): string {
    if pieces == [] then []
    else (if pieces[0].Kept? then TextOf(pieces[0]) else new_) + After(pieces[1..], new_)
  }

  function NextPiece(ps: seq<string>, s: string): (piece: Piece)
    requires s != []
    ensures TextOf(piece) <= s && TextOf(piece) != [] && (piece.Pattern? ==> piece.p in ps)
  {
    var p := Match(ps, s);
    if p != [] then Pattern(p) else Kept(s[..1])
  }

  /** The pieces a scan takes a text apart into. */
  function Pieces(ps: seq<string>, s: string): seq<Piece>
    decreases |s|
  {
    if s == [] then []
    else
      var piece := NextPiece(ps, s);
      [piece] + Pieces(ps, s[|TextOf(piece)|..])
  }

  lemma FirstPiece(piece: Piece, rest: seq<Piece>, new_: string)
    ensures Before([piece] + rest) == TextOf(piece) + Before(rest)
    ensures After([piece] + rest, new_) == (if piece.Kept? then TextOf(piece) else new_) + After(rest, new_)
  {
    assert ([piece] + rest)[1..] == rest;
  }

  lemma ScanStep(ps: seq<string>, s: string, new_: string)
    requires s != []
    ensures var piece := NextPiece(ps, s);
      var rest := s[|TextOf(piece)|..];
      && s == TextOf(piece) + rest
      && ReplaceAny(ps, s, new_) == (if piece.Kept? then TextOf(piece) else new_) + ReplaceAny(ps, rest, new_)
  {
  }

  /** The body is a sequence of kept stretches and pattern occurrences, and the result is the same
      sequence with every occurrence replaced: nothing else is lost, added or moved. */
  lemma {:induction false} OnlyPatternsChange(ps: seq<string>, s: string, new_: string)
    ensures Before(Pieces(ps, s)) == s && After(Pieces(ps, s), new_) == ReplaceAny(ps, s, new_)
    ensures forall piece <- Pieces(ps, s) :: piece.Pattern? ==> piece.p in ps
    decreases |s|
  {
    if s != [] {
      var piece := NextPiece(ps, s);
      var rest := s[|TextOf(piece)|..];
      OnlyPatternsChange(ps, rest, new_);
      FirstPiece(piece, Pieces(ps, rest), new_);
      ScanStep(ps, s, new_);
    }
  }
}
