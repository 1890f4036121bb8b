/**
 Line ends of the response text: `addCR`, which puts a carriage return before every line feed that
 lacks one while it decodes UTF-8, `removeCR`, and the loop that appends the response's chunks.
 */
module LineEnds {
  import opened Bytes
  import Text

  const CR: Byte := 13
  const LF: Byte := 10
  const RUNE_ERROR := 0xFFFD

  // ---------- UTF-8 ----------

  predicate Continuation(b: Byte) { 0x80 <= b <= 0xBF }

  /** The second bytes that may follow the first byte `b` of a sequence (section 4 of RFC 3629). */
  predicate SecondByte(b: Byte, c: Byte) {
    (if b == 0xE0 then 0xA0 else if b == 0xF0 then 0x90 else 0x80) <= c
    <= (if b == 0xED then 0x9F else if b == 0xF4 then 0x8F else 0xBF)
  }

  /** The length of the sequence that starts with byte `b`, 0 if none does. */
  function SequenceLength(b: Byte): nat {
    if b < 0x80 then 1
    else if b < 0xC2 then 0
    else if b < 0xE0 then 2
    else if b < 0xF0 then 3
    else if b < 0xF5 then 4
    else 0
  }

  /** utf8.DecodeRuneInString on a non-empty string: a code point and its width in bytes; for a
      malformed sequence the replacement character and width 1. */
  function DecodeRune(s: Bytes): (r: (int, nat))
    requires s != []
    ensures 1 <= r.1 <= |s|
  {
    var n, a: int := SequenceLength(s[0]), s[0];
    if n == 1 then (a, 1)
    else if n == 0 || |s| < n || !SecondByte(s[0], s[1]) then (RUNE_ERROR, 1)
    else
      var b: int := s[1] - 0x80;
      if n == 2 then (64 * (a - 0xC0) + b, 2)
      else if !Continuation(s[2]) then (RUNE_ERROR, 1)
      else
        var c: int := s[2] - 0x80;
        if n == 3 then (4096 * (a - 0xE0) + 64 * b + c, 3)
        else if !Continuation(s[3]) then (RUNE_ERROR, 1)
        else (262144 * (a - 0xF0) + 4096 * b + 64 * c + (s[3] - 0x80), 4)
  }

  // ---------- The byte-level meaning of addCR ----------

  /** `s` with a CR before every LF that has none, given whether the byte before `s` is a CR. */
  function AddCRAfter(afterCR: bool, s: Bytes): Bytes
    decreases |s|
  {
    if s == [] then []
    else if s[0] == LF && !afterCR then [CR, LF] + AddCRAfter(false, s[1..])
    else [s[0]] + AddCRAfter(s[0] == CR, s[1..])
  }

  function AddCR(s: Bytes): Bytes { AddCRAfter(false, s) }

  predicate EndsInCR(s: Bytes) { s != [] && s[|s| - 1] == CR }

  predicate StartsInLF(s: Bytes) { s != [] && s[0] == LF }

  function RemoveCR(s: Bytes): Bytes { Text.Without(s, CR) }

  lemma {:induction false} AddCROfConcat(p: bool, s: Bytes, t: Bytes)
    ensures AddCRAfter(p, s + t) == AddCRAfter(p, s) + AddCRAfter(if s == [] then p else EndsInCR(s), t)
    decreases |s|
  {
    if s == [] {
      assert s + t == t;
    } else {
      assert (s + t)[1..] == s[1..] + t;
      AddCROfConcat(s[0] == CR, s[1..], t);
    }
  }

  /** Bytes of multi-byte characters are copied. */
  lemma {:induction false} AddCRKeepsHigh(p: bool, s: Bytes)
    requires forall i | 0 <= i < |s| :: s[i] >= 0x80
    ensures AddCRAfter(p, s) == s
    decreases |s|
  {
    if s != [] { AddCRKeepsHigh(false, s[1..]); }
  }

  /** The decoding loop computes the byte-level function, on every byte string. */
  method AddCRLoop(val: Bytes) returns (out: Bytes)
    ensures out == AddCR(val)
  {
    out := [];
    var prevRune := 0;
    var i := 0;
    while i < |val|
      invariant 0 <= i <= |val| && out == AddCR(val[..i])
      invariant prevRune == CR <==> EndsInCR(val[..i])
    {
      var (r, wid) := DecodeRune(val[i..]);
      ghost var piece := val[i..i + wid];
      AddCROfConcat(false, val[..i], piece);
      assert val[..i] + piece == val[..i + wid];
      if wid > 1 { AddCRKeepsHigh(EndsInCR(val[..i]), piece); }
      if wid == 1 {
        assert piece == [val[i]];
        if r == 10 {
          if prevRune != 13 {
            out := out + [CR];
          }
        }
      }
      prevRune := r;
      out := out + val[i..i + wid];
      i := i + wid;
    }
    assert val[..|val|] == val;
  }

  // ---------- Laws ----------

  /** In the result every LF is preceded by a CR. */
  lemma {:induction false} EveryLFAfterCR(p: bool, s: Bytes)
    ensures forall i | 0 <= i < |AddCRAfter(p, s)| && AddCRAfter(p, s)[i] == LF ::
      if i == 0 then p else AddCRAfter(p, s)[i - 1] == CR
    decreases |s|
  {
    if s != [] {
      EveryLFAfterCR(s[0] == CR, s[1..]);
      if s[0] == LF { EveryLFAfterCR(false, s[1..]); }
    }
  }

  lemma {:induction false} AddCRIdempotentAfter(p: bool, s: Bytes)
    ensures AddCRAfter(p, AddCRAfter(p, s)) == AddCRAfter(p, s)
    decreases |s|
  {
    if s != [] {
      if s[0] == LF && !p {
        AddCRIdempotentAfter(false, s[1..]);
        var rest := AddCRAfter(false, s[1..]);
        assert ([CR, LF] + rest)[1..] == [LF] + rest && ([LF] + rest)[1..] == rest;
        assert AddCRAfter(p, [CR, LF] + rest) == [CR] + AddCRAfter(true, [LF] + rest);
      } else {
        AddCRIdempotentAfter(s[0] == CR, s[1..]);
        assert ([s[0]] + AddCRAfter(s[0] == CR, s[1..]))[1..] == AddCRAfter(s[0] == CR, s[1..]);
      }
    }
  }

  /** Repairing twice is repairing once. */
  lemma AddCRIdempotent(s: Bytes)
    ensures AddCR(AddCR(s)) == AddCR(s)
  {
    AddCRIdempotentAfter(false, s);
  }

  /** Removing the CRs undoes whatever adding them did. */
  lemma {:induction false} RemoveAfterAdd(p: bool, s: Bytes)
    ensures RemoveCR(AddCRAfter(p, s)) == RemoveCR(s)
    decreases |s|
  {
    if s != [] {
      RemoveAfterAdd(s[0] == CR, s[1..]);
      if s[0] == LF && !p {
        RemoveAfterAdd(false, s[1..]);
        var rest := AddCRAfter(false, s[1..]);
        assert ([CR, LF] + rest)[1..] == [LF] + rest && ([LF] + rest)[1..] == rest;
        assert RemoveCR([CR, LF] + rest) == [] + RemoveCR([LF] + rest);
      } else {
        assert ([s[0]] + AddCRAfter(s[0] == CR, s[1..]))[1..] == AddCRAfter(s[0] == CR, s[1..]);
      }
    }
  }

  predicate LoneLF(s: Bytes, i: nat)
    requires i < |s|
  {
    s[i] == LF && (i == 0 || s[i - 1] != CR)
  }

  /** How many of the first `n` bytes are line feeds that no CR precedes. */
  function LoneLFs(s: Bytes, n: nat): nat
    requires n <= |s|
  {
    if n == 0 then 0 else LoneLFs(s, n - 1) + if LoneLF(s, n - 1) then 1 else 0
  }

  lemma {:induction false} AddCRLengthUpTo(s: Bytes, n: nat)
    requires n <= |s|
    ensures |AddCR(s[..n])| == n + LoneLFs(s, n)
  {
    if n > 0 {
      AddCRLengthUpTo(s, n - 1);
      assert s[..n] == s[..n - 1] + [s[n - 1]];
      AddCROfConcat(false, s[..n - 1], [s[n - 1]]);
    }
  }

  /** The text grows by exactly the number of lone line feeds. */
  lemma AddCRLength(s: Bytes)
    ensures |AddCR(s)| == |s| + LoneLFs(s, |s|)
  {
    AddCRLengthUpTo(s, |s|);
    assert s[..|s|] == s;
  }

  // ---------- Chunks ----------

  function AddCREach(chunks: seq<Bytes>): Bytes {
    if chunks == [] then [] else AddCR(chunks[0]) + AddCREach(chunks[1..])
  }

  predicate SplitAt(chunks: seq<Bytes>, k: nat)
    requires k <= |chunks|
  {
    EndsInCR(Flatten(chunks[..k])) && StartsInLF(Flatten(chunks[k..]))
  }

  /** Some chunk boundary falls between a CR and an LF. */
  ghost predicate SplitsPair(chunks: seq<Bytes>) {
    exists k: nat :: k <= |chunks| && SplitAt(chunks, k)
  }

  lemma SplitsPairUnfold(chunks: seq<Bytes>)
    requires chunks != []
    ensures SplitsPair(chunks) <==>
      SplitsPair(chunks[1..]) || (EndsInCR(chunks[0]) && StartsInLF(Flatten(chunks[1..])))
  {
    var rest := chunks[1..];
    if k: nat :| k <= |chunks| && SplitAt(chunks, k) {
      SplitFound(chunks, k);
      if !EndsInCR(chunks[0]) || !StartsInLF(Flatten(rest)) { assert SplitAt(rest, k - 1); }
    }
    if k: nat :| k <= |rest| && SplitAt(rest, k) {
      SplitLater(chunks, k);
      assert SplitAt(chunks, k + 1);
    }
    if EndsInCR(chunks[0]) && StartsInLF(Flatten(rest)) {
      SplitFirst(chunks);
      assert SplitAt(chunks, 1);
    }
  }

  lemma SplitFound(chunks: seq<Bytes>, k: nat)
    requires chunks != [] && k <= |chunks| && SplitAt(chunks, k)
    ensures k > 0 && (SplitAt(chunks[1..], k - 1) || (EndsInCR(chunks[0]) && StartsInLF(Flatten(chunks[1..]))))
  {
    assert k > 0;
    var rest := chunks[1..];
    assert chunks[..k][1..] == rest[..k - 1] && chunks[k..] == rest[k - 1..];
    if Flatten(rest[..k - 1]) == [] {
      assert rest == rest[..k - 1] + rest[k - 1..];
      FlattenConcat(rest[..k - 1], rest[k - 1..]);
    }
  }

  lemma SplitLater(chunks: seq<Bytes>, k: nat)
    requires chunks != [] && k < |chunks| && SplitAt(chunks[1..], k)
    ensures SplitAt(chunks, k + 1)
  {
    assert chunks[..k + 1][1..] == chunks[1..][..k] && chunks[k + 1..] == chunks[1..][k..];
  }

  lemma SplitFirst(chunks: seq<Bytes>)
    requires chunks != [] && EndsInCR(chunks[0]) && StartsInLF(Flatten(chunks[1..]))
    ensures SplitAt(chunks, 1)
  {
    assert chunks[..1] == [chunks[0]] && Flatten([chunks[0]]) == chunks[0] + Flatten([chunks[0]][1..]);
  }

  /** Forgetting that a CR came before costs one extra CR, exactly when an LF comes next. */
  lemma AfterCRMatters(s: Bytes)
    ensures AddCR(s) == (if StartsInLF(s) then [CR] else []) + AddCRAfter(true, s)
  {
    if StartsInLF(s) { assert AddCRAfter(true, s) == [LF] + AddCRAfter(false, s[1..]); }
  }

  lemma {:induction false} ChunksNeverShorter(chunks: seq<Bytes>)
    ensures |AddCREach(chunks)| >= |AddCR(Flatten(chunks))|
    ensures AddCREach(chunks) == AddCR(Flatten(chunks)) <==> !SplitsPair(chunks)
    ensures SplitsPair(chunks) ==> |AddCREach(chunks)| > |AddCR(Flatten(chunks))|
  {
    if chunks != [] {
      var c, rest := chunks[0], chunks[1..];
      ChunksNeverShorter(rest);
      SplitsPairUnfold(chunks);
      AddCROfConcat(false, c, Flatten(rest));
      AfterCRMatters(Flatten(rest));
    } else {
      assert !SplitsPair(chunks);
    }
  }

  /** Repairing chunk by chunk equals repairing the whole text exactly when no chunk boundary falls
      between a CR and an LF. */
  lemma ChunkedEqualsWhole(chunks: seq<Bytes>)
    ensures AddCREach(chunks) == AddCR(Flatten(chunks)) <==> !SplitsPair(chunks)
  {
    ChunksNeverShorter(chunks);
  }

  lemma {:induction false} AddCREachOfConcat(a: seq<Bytes>, b: seq<Bytes>)
    ensures AddCREach(a + b) == AddCREach(a) + AddCREach(b)
  {
    if a == [] {
      assert a + b == b;
    } else {
      assert (a + b)[1..] == a[1..] + b;
      AddCREachOfConcat(a[1..], b);
    }
  }

  /** The database's answer to one request for the next chunk; `more` is bNextChunkExists. */
  datatype Fetch = Chunk(data: Bytes, more: bool) | NullChunk | FetchError

  datatype Ending = Done | Failed | Panicked | Asking

  predicate Stops(f: Fetch) { f.Chunk? ==> !f.more }

  function Data(fetches: seq<Fetch>): seq<Bytes>
    requires forall i | 0 <= i < |fetches| :: fetches[i].Chunk?
  {
    seq(|fetches|, i requires 0 <= i < |fetches| => fetches[i].data)
  }

  /** The position of the first answer after which the loop does not ask again; their number if there is none. */
  function FirstStop(fetches: seq<Fetch>): (n: nat)
    ensures n <= |fetches|
    ensures forall i | 0 <= i < n :: fetches[i].Chunk? && fetches[i].more
    ensures n < |fetches| ==> !(fetches[n].Chunk? && fetches[n].more)
    ensures forall i | 0 <= i < n :: !Stops(fetches[i])
    ensures n < |fetches| ==> Stops(fetches[n])
  {
    if fetches == [] || Stops(fetches[0]) then 0 else 1 + FirstStop(fetches[1..])
  }

  /** The chunk loop, on a database whose first answers are `fetches`. Every chunk before the stopping answer
      is repaired and appended, and the stopping one too if it is a chunk; a NULL chunk is a failed type
      assertion. As long as no answer stops it the loop goes on asking. */
  method GetRestChunks(content: Bytes, fetches: seq<Fetch>) returns (r: Bytes, ending: Ending)
    ensures var stop := FirstStop(fetches);
      && ending == (if stop == |fetches| then Asking else
                    match fetches[stop]
                    case Chunk(_, _) => Done
                    case NullChunk => Panicked
                    case FetchError => Failed)
      && r == content + AddCREach(Data(fetches[..stop])) + if ending.Done? then AddCR(fetches[stop].data) else []
  {
    ghost var stop := FirstStop(fetches);
    r, ending := content, Asking;
    var i := 0;
    var bNextChunkExists := true;
    while bNextChunkExists && i < |fetches|
      invariant bNextChunkExists ==> ending.Asking? && i <= stop && r == content + AddCREach(Data(fetches[..i]))
      invariant !bNextChunkExists ==> ending.Done? && stop < |fetches| && fetches[stop].Chunk?
      invariant !bNextChunkExists ==> r == content + AddCREach(Data(fetches[..stop])) + AddCR(fetches[stop].data)
      decreases bNextChunkExists, |fetches| - i
    {
      match fetches[i] {
        case FetchError =>
          return r, Failed;
        case NullChunk =>
          return r, Panicked;
        case Chunk(data, more) =>
          AppendOne(fetches, i);
          var repaired := AddCRLoop(data);
          r := r + repaired;
          bNextChunkExists := more;
          if !more { ending := Done; }
          i := i + 1;
      }
    }
  }

  lemma AppendOne(fetches: seq<Fetch>, i: nat)
    requires i < |fetches| && forall j | 0 <= j <= i :: fetches[j].Chunk?
    ensures AddCREach(Data(fetches[..i + 1])) == AddCREach(Data(fetches[..i])) + AddCR(fetches[i].data)
  {
    assert Data(fetches[..i + 1]) == Data(fetches[..i]) + [fetches[i].data];
    AddCREachOfConcat(Data(fetches[..i]), [fetches[i].data]);
    assert [fetches[i].data][1..] == [];
  }

  /** The body of a response whose chunks were all fetched is the repaired whole text exactly when no
      chunk boundary splits a CR from its LF. */
  lemma WholeResponse(first: Bytes, rest: seq<Bytes>)
    ensures AddCR(first) + AddCREach(rest) == AddCR(first + Flatten(rest)) <==> !SplitsPair([first] + rest)
  {
    assert ([first] + rest)[1..] == rest;
    ChunkedEqualsWhole([first] + rest);
  }
}
