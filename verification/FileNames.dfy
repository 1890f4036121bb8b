/** `encodeFilename`: download file names are brought to percent-encoded form. */
module FileNames {
  import opened Options
  import opened Bytes

  const SPACE: Byte := 32
  const PERCENT: Byte := 37
  const PLUS: Byte := 43

  /** The bytes of `=?utf-8?`, with which an already encoded word begins. */
  const ENCODED_WORD: Bytes := [61, 63, 117, 116, 102, 45, 56, 63]

  predicate Digit(b: Byte) { 48 <= b <= 57 }

  /** The unreserved characters of section 2.3 of RFC 3986: letters, digits, `-`, `.`, `_`, `~`. */
  predicate Unreserved(b: Byte) {
    Digit(b) || 65 <= b <= 90 || 97 <= b <= 122 || b == 45 || b == 46 || b == 95 || b == 126
  }

  function HexDigit(n: Byte): (d: Byte)
    requires n < 16
    ensures Unhex(d) == Some(n)
  {
    if n < 10 then 48 + n else 55 + n
  }

  function Unhex(d: Byte): (n: Option<Byte>)
    ensures n.Some? ==> n.value < 16
  {
    if Digit(d) then Some(d - 48)
    else if 65 <= d <= 70 then Some(d - 55)
    else if 97 <= d <= 102 then Some(d - 87)
    else None
  }

  /** url.QueryEscape. */
  function QueryEscape(s: Bytes): Bytes {
    if s == [] then []
    else
      (if Unreserved(s[0]) then [s[0]]
       else if s[0] == SPACE then [PLUS]
       else [PERCENT, HexDigit(s[0] / 16), HexDigit(s[0] % 16)])
      + QueryEscape(s[1..])
  }

  /** url.QueryUnescape; None when a `%` is not followed by two hexadecimal digits. */
  function QueryUnescape(s: Bytes): Option<Bytes>
    decreases |s|
  {
    if s == [] then Some([])
    else if s[0] == PERCENT then
      if |s| < 3 || Unhex(s[1]).None? || Unhex(s[2]).None? then None
      else Prepend(16 * Unhex(s[1]).value + Unhex(s[2]).value, QueryUnescape(s[3..]))
    else Prepend(if s[0] == PLUS then SPACE else s[0], QueryUnescape(s[1..]))
  }

  function Prepend(b: Byte, rest: Option<Bytes>): Option<Bytes> {
    match rest
    case None => None
    case Some(s) => Some([b] + s)
  }

  function EncodeFilename(f: Bytes): Bytes {
    if ENCODED_WORD <= f then f
    else
      match QueryUnescape(f)
      case Some(s) => QueryEscape(s)
      case None => QueryEscape(f)
  }

  lemma EscapeFirst(b: Byte, s: Bytes)
    ensures QueryEscape([b] + s) == QueryEscape([b]) + QueryEscape(s)
    ensures QueryEscape([b]) == if Unreserved(b) then [b] else if b == SPACE then [PLUS]
                                else [PERCENT, HexDigit(b / 16), HexDigit(b % 16)]
  {
    assert ([b] + s)[1..] == s && [b][1..] == [];
    assert QueryEscape([b]) + [] == QueryEscape([b]);
  }

  lemma UnescapeHex(h: Byte, l: Byte, rest: Bytes)
    requires Unhex(h).Some? && Unhex(l).Some? && QueryUnescape(rest).Some?
    ensures QueryUnescape([PERCENT, h, l] + rest) ==
      Some([16 * Unhex(h).value + Unhex(l).value] + QueryUnescape(rest).value)
  {
    assert ([PERCENT, h, l] + rest)[3..] == rest;
  }

  lemma UnescapeFirst(b: Byte, rest: Bytes)
    requires QueryUnescape(rest).Some?
    ensures QueryUnescape(QueryEscape([b]) + rest) == Some([b] + QueryUnescape(rest).value)
  {
    EscapeFirst(b, []);
    if Unreserved(b) || b == SPACE {
      assert (QueryEscape([b]) + rest)[1..] == rest;
    } else {
      UnescapeHex(HexDigit(b / 16), HexDigit(b % 16), rest);
    }
  }

  /** Unescaping undoes escaping, for every byte string. */
  lemma {:induction false} UnescapeEscape(s: Bytes)
    ensures QueryUnescape(QueryEscape(s)) == Some(s)
  {
    if s != [] {
      UnescapeEscape(s[1..]);
      EscapeFirst(s[0], s[1..]);
      UnescapeFirst(s[0], QueryEscape(s[1..]));
      assert [s[0]] + s[1..] == s;
    }
  }

  /** An escaped name never looks like an encoded word: `=` is always escaped. */
  lemma EscapedIsNoEncodedWord(s: Bytes)
    ensures !(ENCODED_WORD <= QueryEscape(s))
  {
    if s != [] { assert QueryEscape(s)[0] != 61; }
  }

  /** Encoding an encoded name changes nothing, even if the name was not decodable. */
  lemma EncodeFilenameIdempotent(f: Bytes)
    ensures EncodeFilename(EncodeFilename(f)) == EncodeFilename(f)
  {
    if !(ENCODED_WORD <= f) {
      var s := if QueryUnescape(f).Some? then QueryUnescape(f).value else f;
      UnescapeEscape(s);
      EscapedIsNoEncodedWord(s);
    }
  }

  /** What a name stands for: an encoded word for itself, any other name for its decoded form, or for itself
      where it cannot be decoded. */
  datatype Meaning = Word(word: Bytes) | Name(name: Bytes)

  function Meant(f: Bytes): Meaning {
    if ENCODED_WORD <= f then Word(f) else Name(if QueryUnescape(f).Some? then QueryUnescape(f).value else f)
  }

  /** Encoding leaves encoded words alone and brings every other name to the one form that decodes to what
      the name stood for. */
  lemma EncodedNameMeansTheSame(f: Bytes)
    ensures EncodeFilename(f) == (match Meant(f) case Word(word) => word case Name(name) => QueryEscape(name))
    ensures Meant(EncodeFilename(f)) == Meant(f)
  {
    if !(ENCODED_WORD <= f) {
      UnescapeEscape(Meant(f).name);
      EscapedIsNoEncodedWord(Meant(f).name);
    }
  }

  /** Two names are encoded alike exactly when they stand for the same. */
  lemma EncodedAlike(f: Bytes, g: Bytes)
    ensures EncodeFilename(f) == EncodeFilename(g) <==> Meant(f) == Meant(g)
  {
    EncodedNameMeansTheSame(f);
    EncodedNameMeansTheSame(g);
  }

  // ---------- What an encoded name looks like ----------

  /** Letters, digits, `-`, `.`, `_` and `~`. */
  predicate Safe(b: Byte) {
    var c := b as int as char;
    'a' <= c <= 'z' || 'A' <= c <= 'Z' || '0' <= c <= '9' || c == '-' || c == '.' || c == '_' || c == '~'
  }

  /** The value of a hexadecimal digit, in either case. */
  function HexValue(b: Byte): Option<int> {
    var c := b as int as char;
    if '0' <= c <= '9' then Some(c as int - '0' as int)
    else if 'A' <= c <= 'F' then Some(c as int - 'A' as int + 10)
    else if 'a' <= c <= 'f' then Some(c as int - 'a' as int + 10)
    else None
  }

  predicate UpperHex(b: Byte) {
    HexValue(b).Some? && !('a' <= b as int as char <= 'f')
  }

  /** `e` is how one byte is written: itself if it is safe, `+` for a space, and for any other byte `%` and its two
      hexadecimal digits in upper case. */
  predicate Written(b: Byte, e: Bytes) {
    if Safe(b) then e == [b]
    else if b as int as char == ' ' then |e| == 1 && e[0] as int as char == '+'
    else
      && |e| == 3 && e[0] as int as char == '%' && UpperHex(e[1]) && UpperHex(e[2])
      && 16 * HexValue(e[1]).value + HexValue(e[2]).value == b as int
  }

  /** An escaped name is its bytes, written one behind the other. */
  lemma EscapedByteByByte(b: Byte, s: Bytes)
    ensures QueryEscape([b] + s) == QueryEscape([b]) + QueryEscape(s) && Written(b, QueryEscape([b]))
    ensures QueryEscape([]) == []
  {
    EscapeFirst(b, s);
    if !Safe(b) && b != SPACE { HexDigitsOf(b); }
  }

  lemma HexDigitsOf(b: Byte)
    ensures var h, l := HexDigit(b / 16), HexDigit(b % 16);
      UpperHex(h) && UpperHex(l) && 16 * HexValue(h).value + HexValue(l).value == b as int
  {
  }

  /** How many of the bytes are safe, or spaces. */
  function Singles(s: Bytes): nat {
    if s == [] then 0 else Singles(s[1..]) + if Safe(s[0]) || s[0] as int as char == ' ' then 1 else 0
  }

  predicate WellFormedAt(e: Bytes, i: nat)
    requires i < |e|
  {
    if e[i] as int as char == '%' then i + 2 < |e| && UpperHex(e[i + 1]) && UpperHex(e[i + 2])
    else Safe(e[i]) || e[i] as int as char == '+'
  }

  /** Behind `%` come two digits, and every other character is safe or a plus sign. */
  predicate WellFormed(e: Bytes) {
    forall i | 0 <= i < |e| :: WellFormedAt(e, i)
  }

  lemma WrittenIsWellFormed(b: Byte, e: Bytes)
    requires Written(b, e)
    ensures WellFormed(e)
  {
    forall i | 0 <= i < |e| ensures WellFormedAt(e, i) {
      if |e| == 3 { assert i == 0 || i == 1 || i == 2; }
    }
  }

  lemma {:induction false} EscapedForm(s: Bytes)
    ensures WellFormed(QueryEscape(s)) && |QueryEscape(s)| == Singles(s) + 3 * (|s| - Singles(s))
    ensures (forall b <- s :: Safe(b)) ==> QueryEscape(s) == s
  {
    if s != [] {
      var first, rest := QueryEscape([s[0]]), QueryEscape(s[1..]);
      EscapedForm(s[1..]);
      EscapedByteByByte(s[0], s[1..]);
      assert s == [s[0]] + s[1..];
      WrittenIsWellFormed(s[0], first);
      FormOfConcat(first, rest);
    }
  }

  lemma FormOfConcat(a: Bytes, e: Bytes)
    requires WellFormed(a) && WellFormed(e)
    ensures WellFormed(a + e)
  {
    forall i | 0 <= i < |a + e| ensures WellFormedAt(a + e, i) {
      if i < |a| { assert WellFormedAt(a, i); } else { assert WellFormedAt(e, i - |a|); }
    }
  }

  lemma {:induction false} SafeIsDecoded(s: Bytes)
    requires forall b <- s :: Safe(b)
    ensures QueryUnescape(s) == Some(s)
  {
    if s != [] {
      SafeIsDecoded(s[1..]);
      assert s[0] in s && s == [s[0]] + s[1..];
    }
  }

  /** A name of letters, digits, `-`, `.`, `_` and `~` is encoded as it is. Every other name that is no encoded word
      becomes safe characters, plus signs and `%` with two digits: one character for every safe byte and every
      space of what it stands for, and three for any other byte. */
  lemma EncodedForm(f: Bytes)
    ensures (forall b <- f :: Safe(b)) ==> EncodeFilename(f) == f
    ensures Meant(f).Name? ==>
      && WellFormed(EncodeFilename(f))
      && |EncodeFilename(f)| == Singles(Meant(f).name) + 3 * (|Meant(f).name| - Singles(Meant(f).name))
  {
    if Meant(f).Name? {
      EncodedNameMeansTheSame(f);
      EscapedForm(Meant(f).name);
      if forall b <- f :: Safe(b) {
        SafeIsDecoded(f);
        EscapedForm(f);
      }
    }
  }

  /** A name that begins with `=?utf-8?`, and no other, is an encoded word and left as it is. */
  lemma WordsStay(f: Bytes)
    ensures Meant(f).Word? <==> |f| >= 8 && forall i | 0 <= i < 8 :: f[i] as int as char == "=?utf-8?"[i]
    ensures Meant(f).Word? ==> EncodeFilename(f) == f
  {
    var word := "=?utf-8?";
    assert forall i | 0 <= i < 8 :: ENCODED_WORD[i] as int as char == word[i];
    if |f| >= 8 && forall i | 0 <= i < 8 :: f[i] as int as char == word[i] {
      assert forall i | 0 <= i < 8 :: f[i] == ENCODED_WORD[i];
    }
  }

  // ---------- What can be decoded ----------

  predicate BadEscape(s: Bytes, i: nat)
    requires i < |s|
  {
    s[i] as int as char == '%' && (i + 2 >= |s| || HexValue(s[i + 1]).None? || HexValue(s[i + 2]).None?)
  }

  /** Decoding fails exactly when some `%` is not followed by two hexadecimal digits. */
  lemma {:induction false} DecodableExactly(s: Bytes)
    ensures QueryUnescape(s).None? <==> exists i :: 0 <= i < |s| && BadEscape(s, i)
    decreases |s|
  {
    if s != [] {
      var n := if s[0] == PERCENT && |s| >= 3 && Unhex(s[1]).Some? && Unhex(s[2]).Some? then 3 else 1;
      DecodableExactly(s[n..]);
      BadEscapeLater(s, n);
    }
  }

  lemma BadEscapeLater(s: Bytes, n: nat)
    requires 0 < n <= |s| && forall i | 0 < i < n :: s[i] != PERCENT
    ensures (exists i :: 0 <= i < |s| && BadEscape(s, i)) <==>
      BadEscape(s, 0) || exists i :: 0 <= i < |s[n..]| && BadEscape(s[n..], i)
  {
    if i :| 0 <= i < |s| && BadEscape(s, i) {
      if i > 0 { assert i >= n && BadEscape(s[n..], i - n); }
    }
    if i :| 0 <= i < |s[n..]| && BadEscape(s[n..], i) { assert BadEscape(s, i + n); }
  }

  /** What can be decoded is decoded one unit after the other: `+` for a space, `%` and two digits for the byte of
      that value, any other byte for itself. */
  lemma DecodedUnit(b: Byte, h: Byte, l: Byte, s: Bytes)
    requires QueryUnescape(s).Some?
    ensures b as int as char == '+' ==> QueryUnescape([b] + s) == Some([32] + QueryUnescape(s).value)
    ensures b as int as char !in ['+', '%'] ==> QueryUnescape([b] + s) == Some([b] + QueryUnescape(s).value)
    ensures b as int as char == '%' && HexValue(h).Some? && HexValue(l).Some? ==>
      && QueryUnescape([b, h, l] + s).Some? && QueryUnescape([b, h, l] + s).value != []
      && QueryUnescape([b, h, l] + s).value[0] as int == 16 * HexValue(h).value + HexValue(l).value
      && QueryUnescape([b, h, l] + s).value[1..] == QueryUnescape(s).value
  {
    assert ([b] + s)[1..] == s && ([b, h, l] + s)[3..] == s;
  }
}
