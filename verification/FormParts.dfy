/**
 What a stream of multipart/form-data parts (section 4.2 of RFC 7578) stands for: the values by
 name, the files in stream order, and the p_arg_names value in force at each file.
 */
module FormParts {
  import opened Bytes

  /** A part: its field name, its file name, the bytes that can be read from it, and whether reading
      beyond them fails instead of ending. */
  datatype Part = Part(formName: string, fileName: string, body: Bytes, faulty: bool)
  {
    predicate IsValue() { formName != "" && fileName == "" }

    predicate IsFile() { formName != "" && fileName != "" }
  }

  /** `clean`: after the last part the stream ends properly. */
  datatype Stream = Stream(parts: seq<Part>, clean: bool)

  const P_ARG_NAMES := "p_arg_names"

  /** The file of one part: under which name it is filed, what it is called, its content, and the
      value of p_arg_names that precedes it. */
  datatype Upload = Upload(name: string, fileName: string, body: Bytes, lastArg: Bytes)

  function Init<T>(s: seq<T>): seq<T>
    requires s != []
  {
    s[..|s| - 1]
  }

  function Last<T>(s: seq<T>): T
    requires s != []
  {
    s[|s| - 1]
  }

  /** Bytes of named value parts among the first `n` parts. */
  function Total(parts: seq<Part>, n: nat): nat
    requires n <= |parts|
  {
    if n == 0 then 0 else Total(parts, n - 1) + if parts[n - 1].IsValue() then |parts[n - 1].body| else 0
  }

  /** The most recent p_arg_names value after the first `n` parts. */
  function LastArg(parts: seq<Part>, n: nat): Bytes
    requires n <= |parts|
  {
    if n == 0 then []
    else if parts[n - 1].IsValue() && parts[n - 1].formName == P_ARG_NAMES then parts[n - 1].body
    else LastArg(parts, n - 1)
  }

  /** The files among the first `n` parts, in stream order. */
  function Uploads(parts: seq<Part>, n: nat): seq<Upload>
    requires n <= |parts|
  {
    if n == 0 then []
    else
      var p := parts[n - 1];
      if p.IsFile() then Uploads(parts, n - 1) + [Upload(p.formName, p.fileName, p.body, LastArg(parts, n - 1))]
      else Uploads(parts, n - 1)
  }

  /** The bodies of the value parts called `name` among the first `n` parts, in stream order. */
  function ValuesNamed(parts: seq<Part>, n: nat, name: string): seq<Bytes>
    requires n <= |parts|
  {
    if n == 0 then []
    else if parts[n - 1].IsValue() && parts[n - 1].formName == name then
      ValuesNamed(parts, n - 1, name) + [parts[n - 1].body]
    else ValuesNamed(parts, n - 1, name)
  }

  /** The first `n` parts can all be read to their end. */
  predicate Sound(parts: seq<Part>, n: nat)
    requires n <= |parts|
  {
    n == 0 || (Sound(parts, n - 1) && !parts[n - 1].faulty)
  }

  /** Neither a part nor the stream itself fails. */
  predicate NoFaults(s: Stream) {
    s.clean && Sound(s.parts, |s.parts|)
  }

  // ---------- Multimaps ----------

  type Multimap<T> = map<string, seq<T>>

  /** `m[k] = append(m[k], v)`. */
  function Append<T>(m: Multimap<T>, k: string, v: T): Multimap<T> {
    m[k := Get(m, k) + [v]]
  }

  function Get<T>(m: Multimap<T>, k: string): seq<T> {
    if k in m then m[k] else []
  }

  /** The items filed under the names of the uploads, in order. */
  function Filed<T>(uploads: seq<Upload>, items: seq<T>): Multimap<T>
    requires |uploads| == |items|
  {
    if uploads == [] then map[] else Append(Filed(Init(uploads), Init(items)), Last(uploads).name, Last(items))
  }

  /** The items whose upload is called `name`, in order. */
  function ItemsNamed<T>(uploads: seq<Upload>, items: seq<T>, name: string): seq<T>
    requires |uploads| == |items|
  {
    if uploads == [] then []
    else if Last(uploads).name == name then ItemsNamed(Init(uploads), Init(items), name) + [Last(items)]
    else ItemsNamed(Init(uploads), Init(items), name)
  }

  /** Every item is filed once, under its own name and in order, and nothing else is. */
  lemma {:induction false} FiledByName<T>(uploads: seq<Upload>, items: seq<T>, name: string)
    requires |uploads| == |items|
    ensures Get(Filed(uploads, items), name) == ItemsNamed(uploads, items, name)
    ensures name in Filed(uploads, items) <==> ItemsNamed(uploads, items, name) != []
  {
    if uploads != [] { FiledByName(Init(uploads), Init(items), name); }
  }

  /** The multimap of values that the first `n` parts stand for. */
  function ValueMap(parts: seq<Part>, n: nat): Multimap<Bytes>
    requires n <= |parts|
  {
    if n == 0 then map[]
    else if parts[n - 1].IsValue() then Append(ValueMap(parts, n - 1), parts[n - 1].formName, parts[n - 1].body)
    else ValueMap(parts, n - 1)
  }

  /** Every value is filed once, under its own name and in order, and nothing else is. */
  lemma {:induction false} ValueMapByName(parts: seq<Part>, n: nat, name: string)
    requires n <= |parts|
    ensures Get(ValueMap(parts, n), name) == ValuesNamed(parts, n, name)
    ensures name in ValueMap(parts, n) <==> ValuesNamed(parts, n, name) != []
  {
    if n > 0 { ValueMapByName(parts, n - 1, name); }
  }

  lemma {:induction false} TotalsGrow(parts: seq<Part>, n: nat)
    requires n <= |parts|
    ensures Total(parts, n) <= Total(parts, |parts|) && (Sound(parts, |parts|) ==> Sound(parts, n))
    decreases |parts| - n
  {
    if n < |parts| { TotalsGrow(parts, n + 1); }
  }
}
