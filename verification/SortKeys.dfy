/** The order in which sessions are listed: rows are sorted by a string key, and the key of a number
    is its decimal text, zero-padded to forty characters. */
module SortKeys {
  import opened Text

  const WIDTH := 40

  /** Go's `<` on strings. */
  predicate Less(a: string, b: string)
    decreases |a|
  {
    b != [] && (a == [] || a[0] < b[0] || (a[0] == b[0] && Less(a[1..], b[1..])))
  }

  lemma FirstAgrees(a: string, b: string, k: nat)
    requires 0 < k <= |a| && k <= |b| && a[..k] == b[..k]
    ensures a[0] == b[0]
  {
    assert a[..k][0] == b[..k][0];
  }

  /** One text is before another exactly if it has the smaller character where they first differ, or ends there. */
  lemma {:induction false} LessExactly(a: string, b: string)
    ensures Less(a, b) <==> exists k: nat :: k <= |a| && k < |b| && a[..k] == b[..k] && (k == |a| || a[k] < b[k])
    decreases |a|
  {
    if a != [] && b != [] && a[0] == b[0] {
      LessExactly(a[1..], b[1..]);
      if k: nat :| k <= |a| && k < |b| && a[..k] == b[..k] && (k == |a| || a[k] < b[k]) {
        assert k > 0 && a[1..][..k - 1] == a[..k][1..] && b[1..][..k - 1] == b[..k][1..];
      }
      if k: nat :| k <= |a[1..]| && k < |b[1..]| && a[1..][..k] == b[1..][..k]
                   && (k == |a[1..]| || a[1..][k] < b[1..][k]) {
        assert a[..k + 1] == [a[0]] + a[1..][..k] && b[..k + 1] == [b[0]] + b[1..][..k];
      }
    } else if b != [] {
      assert a[..0] == b[..0];
      if k: nat :| k <= |a| && k < |b| && a[..k] == b[..k] && (k == |a| || a[k] < b[k]) {
        if k > 0 { FirstAgrees(a, b, k); }
      }
    }
  }

  function Pow10(k: nat): (p: nat)
    ensures p > 0
  {
    if k == 0 then 1 else 10 * Pow10(k - 1)
  }

  /** The last `w` decimal digits of `n`, most significant first. */
  function Digits(n: nat, w: nat): (s: string)
    ensures |s| == w && forall i | 0 <= i < w :: '0' <= s[i] <= '9'
  {
    if w == 0 then [] else Digits(n / 10, w - 1) + [Digit(n % 10)]
  }

  /** %0wd: a minus sign counts as one of the `w` characters. */
  function Padded(n: int, w: nat): (s: string)
    requires w > 0
    ensures |s| == w
  {
    if n >= 0 then Digits(n, w) else "-" + Digits(-n, w - 1)
  }

  function SortKey(n: int): (s: string) { Padded(n, WIDTH) }

  predicate Int64(n: int) { -0x8000_0000_0000_0000 <= n < 0x8000_0000_0000_0000 }

  lemma {:induction false} LessAppend(s: string, t: string, c: char, d: char)
    requires |s| == |t|
    ensures Less(s + [c], t + [d]) <==> Less(s, t) || (s == t && c < d)
    decreases |s|
  {
    if s == [] {
      assert Less([c], [d]) <==> c < d;
    } else {
      assert (s + [c])[1..] == s[1..] + [c] && (t + [d])[1..] == t[1..] + [d];
      LessAppend(s[1..], t[1..], c, d);
      assert s == [s[0]] + s[1..] && t == [t[0]] + t[1..];
    }
  }

  /** On numbers that fit, fixed-width decimal text is ordered as the numbers are. */
  lemma {:induction false} DigitsOrder(a: nat, b: nat, w: nat)
    requires a < Pow10(w) && b < Pow10(w)
    ensures Less(Digits(a, w), Digits(b, w)) <==> a < b
    ensures Digits(a, w) == Digits(b, w) <==> a == b
  {
    if w > 0 {
      DigitsOrder(a / 10, b / 10, w - 1);
      var s, t := Digits(a / 10, w - 1), Digits(b / 10, w - 1);
      LessAppend(s, t, Digit(a % 10), Digit(b % 10));
      assert Digits(a, w)[..w - 1] == s && Digits(b, w)[..w - 1] == t;
      assert Digits(a, w)[w - 1] == Digit(a % 10) && Digits(b, w)[w - 1] == Digit(b % 10);
    }
  }

  lemma {:induction false} Pow10Grows(k: nat, n: nat)
    requires k <= n
    ensures Pow10(k) <= Pow10(n)
    decreases n - k
  {
    if k < n { Pow10Grows(k, n - 1); }
  }

  lemma Int64Fits(n: int)
    requires Int64(n)
    ensures n < Pow10(WIDTH) && -n < Pow10(WIDTH - 1)
  {
    assert Pow10(4) == 10000;
    assert Pow10(8) == 10000 * 10000;
    assert Pow10(12) == 10000 * 10000 * 10000;
    assert Pow10(16) == 10000 * 10000 * 10000 * 10000;
    assert Pow10(20) == 10000 * 10000 * 10000 * 10000 * 10000;
    Pow10Grows(20, WIDTH);
    Pow10Grows(20, WIDTH - 1);
  }

  /** The order that the keys induce: negatives first and in reverse, then the others in order. */
  predicate KeyBefore(a: int, b: int) {
    if a >= 0 then b >= 0 && a < b else b >= 0 || a > b
  }

  /** A common first character does not matter. */
  lemma LessAfterHead(c: char, s: string, t: string)
    ensures Less([c] + s, [c] + t) <==> Less(s, t)
    ensures [c] + s == [c] + t <==> s == t
  {
    assert ([c] + s)[1..] == s && ([c] + t)[1..] == t;
  }

  lemma DifferentHeads(s: string, t: string)
    requires s != [] && t != [] && s[0] != t[0]
    ensures (Less(s, t) <==> s[0] < t[0]) && s != t
  {
  }

  lemma NegativesOrder(a: nat, b: nat, w: nat)
    requires a < Pow10(w) && b < Pow10(w)
    ensures Less("-" + Digits(a, w), "-" + Digits(b, w)) <==> a < b
    ensures "-" + Digits(a, w) == "-" + Digits(b, w) <==> a == b
  {
    DigitsOrder(a, b, w);
    LessAfterHead('-', Digits(a, w), Digits(b, w));
  }

  lemma NegativeFirst(a: nat, b: nat, w: nat)
    requires w > 0
    ensures Less("-" + Digits(a, w - 1), Digits(b, w)) && !Less(Digits(b, w), "-" + Digits(a, w - 1))
    ensures "-" + Digits(a, w - 1) != Digits(b, w)
  {
    DifferentHeads("-" + Digits(a, w - 1), Digits(b, w));
    DifferentHeads(Digits(b, w), "-" + Digits(a, w - 1));
  }

  /** The texts of two numbers are ordered as the numbers should be. */
  predicate OrderedAs(s: string, t: string, a: int, b: int) {
    (Less(s, t) <==> KeyBefore(a, b)) && (s == t <==> a == b)
  }

  lemma NonNegativeFirst(a: nat, b: int, w: nat)
    requires w > 0 && a < Pow10(w) && b < Pow10(w) && -b < Pow10(w - 1)
    ensures OrderedAs(Digits(a, w), Padded(b, w), a, b)
  {
    if b >= 0 { DigitsOrder(a, b, w); } else { NegativeFirst(-b, a, w); }
  }

  lemma NegativeThen(a: nat, b: int, w: nat)
    requires w > 0 && a > 0 && a < Pow10(w - 1) && b < Pow10(w) && -b < Pow10(w - 1)
    ensures OrderedAs("-" + Digits(a, w - 1), Padded(b, w), -(a as int), b)
  {
    if b >= 0 { NegativeFirst(a, b, w); } else { NegativesOrder(a, -b, w - 1); }
  }

  lemma PaddedOrder(a: int, b: int, w: nat)
    requires w > 0 && a < Pow10(w) && b < Pow10(w) && -a < Pow10(w - 1) && -b < Pow10(w - 1)
    ensures OrderedAs(Padded(a, w), Padded(b, w), a, b)
  {
    if a >= 0 { NonNegativeFirst(a, b, w); } else { NegativeThen(-a, b, w); }
  }

  lemma {:induction false} DigitsValue(n: nat, w: nat)
    requires n < Pow10(w)
    ensures NumeralValue(Digits(n, w)) == n
  {
    if w > 0 {
      DigitsValue(n / 10, w - 1);
      assert Digits(n, w)[..w - 1] == Digits(n / 10, w - 1);
    }
  }

  /** A key is forty characters that stand for its number: digits, behind a minus sign if it is negative. */
  lemma SortKeyReads(n: int)
    requires Int64(n)
    ensures |SortKey(n)| == 40 && forall i | 1 <= i < 40 :: '0' <= SortKey(n)[i] <= '9'
    ensures n >= 0 ==> '0' <= SortKey(n)[0] <= '9' && NumeralValue(SortKey(n)) == n
    ensures n < 0 ==> SortKey(n)[0] == '-' && NumeralValue(SortKey(n)[1..]) == -n
  {
    Int64Fits(n);
    if n >= 0 { DigitsValue(n, WIDTH); } else { DigitsValue(-n, WIDTH - 1); }
  }

  /** Keys are compared as `KeyBefore` says, and different numbers have different keys. */
  lemma KeyOrder(a: int, b: int)
    requires Int64(a) && Int64(b)
    ensures Less(SortKey(a), SortKey(b)) <==> KeyBefore(a, b)
    ensures SortKey(a) == SortKey(b) <==> a == b
  {
    Int64Fits(a);
    Int64Fits(b);
    PaddedOrder(a, b, WIDTH);
  }

  /** The comparison of keys is the comparison of numbers exactly when not both are negative, or they
      are equal. */
  lemma KeysCompareAsNumbers(a: int, b: int)
    requires Int64(a) && Int64(b)
    ensures (Less(SortKey(a), SortKey(b)) <==> a < b) <==> a >= 0 || b >= 0 || a == b
  {
    KeyOrder(a, b);
  }

  // ---------- Collect ----------

  /** The part of a session's row that matters here: its number in the chosen column. */
  datatype Row = Row(session: string, column: int)

  predicate RowLess(x: Row, y: Row) {
    Less(SortKey(x.column), SortKey(y.column))
  }

  /** What sort.Sort promises of a slice: a permutation in which no row is before a lesser one. */
  predicate IsSorted(rows: seq<Row>, result: seq<Row>, reversed: bool) {
    && multiset(rows) == multiset(result)
    && forall i, j | 0 <= i < j < |result| ::
         if reversed then !RowLess(result[i], result[j]) else !RowLess(result[j], result[i])
  }

  predicate Ascending(rows: seq<Row>) {
    forall i, j | 0 <= i < j < |rows| :: rows[i].column <= rows[j].column
  }

  predicate Descending(rows: seq<Row>) {
    forall i, j | 0 <= i < j < |rows| :: rows[i].column >= rows[j].column
  }

  /** `rows` has one row for each registered worker, with its number in the column. */
  ghost predicate Lists(rows: seq<Row>, workers: map<string, int>) {
    && (forall i, j | 0 <= i < j < |rows| :: rows[i].session != rows[j].session)
    && (forall r <- rows :: r.session in workers && r.column == workers[r.session])
    && (forall w <- workers :: Row(w, workers[w]) in rows)
  }

  /** The loop of Collect over the registered workers, in any order. */
  method CollectRows(workers: map<string, int>) returns (rows: seq<Row>)
    ensures Lists(rows, workers)
  {
    rows := [];
    var left := workers.Keys;
    while left != {}
      invariant left <= workers.Keys
      invariant forall i, j | 0 <= i < j < |rows| :: rows[i].session != rows[j].session
      invariant forall r <- rows :: r.session in workers.Keys - left && r.column == workers[r.session]
      invariant forall w <- workers.Keys - left :: Row(w, workers[w]) in rows
    {
      var w :| w in left;
      var row := Row(w, workers[w]);
      assert forall r <- rows + [row] :: r in rows || r == row;
      assert (rows + [row])[|rows|] == row;
      rows := rows + [row];
      left := left - {w};
    }
  }

  /** No worker is listed twice, and all are. */
  lemma SortedLists(workers: map<string, int>, rows: seq<Row>, result: seq<Row>, reversed: bool)
    requires Lists(rows, workers) && IsSorted(rows, result, reversed)
    ensures Lists(result, workers)
  {
    SameElements(rows, result);
    forall i, j | 0 <= i < j < |result| ensures result[i].session != result[j].session {
      if result[i].session == result[j].session {
        assert result[i] == result[j];
        TwiceInMultiset(result, i, j);
        OnceInMultiset(rows, result[i]);
      }
    }
  }

  lemma TwiceInMultiset(s: seq<Row>, i: nat, j: nat)
    requires i < j < |s| && s[i] == s[j]
    ensures multiset(s)[s[i]] >= 2
  {
    assert s == s[..j] + s[j..];
    assert s[i] in s[..j] && s[j..][0] == s[j];
  }

  lemma {:induction false} OnceInMultiset(s: seq<Row>, r: Row)
    requires forall i, j | 0 <= i < j < |s| :: s[i].session != s[j].session
    ensures multiset(s)[r] <= 1
  {
    if s != [] {
      var n := |s| - 1;
      OnceInMultiset(s[..n], r);
      assert s == s[..n] + [s[n]];
    }
  }

  /** Sorting by a numeric column lists every registered worker once, and in numeric order exactly when no
      two of them have different negative numbers there; so always on a column without negative numbers. */
  lemma CollectIsNumeric(workers: map<string, int>, rows: seq<Row>, result: seq<Row>, reversed: bool)
    requires forall w <- workers :: Int64(workers[w])
    requires Lists(rows, workers) && IsSorted(rows, result, reversed)
    ensures Lists(result, workers)
    ensures (if reversed then Descending(result) else Ascending(result)) <==>
      forall v, w | v in workers && w in workers && workers[v] < 0 && workers[w] < 0 :: workers[v] == workers[w]
  {
    SortedLists(workers, rows, result, reversed);
    SortedIsNumeric(rows, result, reversed);
    if forall x, y | x in rows && y in rows && x.column < 0 && y.column < 0 :: x.column == y.column {
      forall v, w | v in workers && w in workers && workers[v] < 0 && workers[w] < 0 ensures workers[v] == workers[w] {
        assert Row(v, workers[v]) in rows && Row(w, workers[w]) in rows;
      }
    }
  }

  lemma SortedIsNumeric(rows: seq<Row>, result: seq<Row>, reversed: bool)
    requires forall r <- rows :: Int64(r.column)
    requires IsSorted(rows, result, reversed)
    ensures (if reversed then Descending(result) else Ascending(result)) <==>
      forall x, y | x in rows && y in rows && x.column < 0 && y.column < 0 :: x.column == y.column
  {
    SameElements(rows, result);
    forall i, j | 0 <= i < j < |result|
      ensures !KeyBefore(if reversed then result[i].column else result[j].column,
                         if reversed then result[j].column else result[i].column)
    {
      KeyOrder(result[i].column, result[j].column);
      KeyOrder(result[j].column, result[i].column);
    }
    if reversed { NumericDescending(result); } else { NumericAscending(result); }
  }

  lemma SameElements(rows: seq<Row>, result: seq<Row>)
    requires multiset(rows) == multiset(result)
    ensures forall r :: r in rows <==> r in result
  {
    forall r ensures r in rows <==> r in result {
      assert r in rows <==> r in multiset(rows);
      assert r in result <==> r in multiset(result);
    }
  }

  lemma NumericAscending(result: seq<Row>)
    requires forall i, j | 0 <= i < j < |result| :: !KeyBefore(result[j].column, result[i].column)
    ensures Ascending(result) <==>
      forall x, y | x in result && y in result && x.column < 0 && y.column < 0 :: x.column == y.column
  {
    if Ascending(result) {
      forall x, y | x in result && y in result && x.column < 0 && y.column < 0 ensures x.column == y.column {
        var i, j :| 0 <= i < |result| && 0 <= j < |result| && result[i] == x && result[j] == y;
      }
    }
  }

  lemma NumericDescending(result: seq<Row>)
    requires forall i, j | 0 <= i < j < |result| :: !KeyBefore(result[i].column, result[j].column)
    ensures Descending(result) <==>
      forall x, y | x in result && y in result && x.column < 0 && y.column < 0 :: x.column == y.column
  {
    if Descending(result) {
      forall x, y | x in result && y in result && x.column < 0 && y.column < 0 ensures x.column == y.column {
        var i, j :| 0 <= i < |result| && 0 <= j < |result| && result[i] == x && result[j] == y;
      }
    }
  }
}
