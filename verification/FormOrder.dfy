/** Where in a form each part of the stream ends up: position by position. */
module FormOrder {
  import opened Bytes
  import opened Collections
  import opened FormParts

  /** Part `j` is a value called `name`. */
  function ValueCalled(parts: seq<Part>, name: string): nat -> bool {
    (j: nat) => j < |parts| && name != "" && parts[j].formName == name && parts[j].fileName == ""
  }

  function FileAt(parts: seq<Part>): nat -> bool {
    (j: nat) => j < |parts| && parts[j].formName != "" && parts[j].fileName != ""
  }

  function Bodies(parts: seq<Part>): seq<Bytes> {
    seq(|parts|, i requires 0 <= i < |parts| => parts[i].body)
  }

  /** Each part with the p_arg_names value in force. */
  function AsUploads(parts: seq<Part>): seq<Upload> {
    seq(|parts|, i requires 0 <= i < |parts| =>
      Upload(parts[i].formName, parts[i].fileName, parts[i].body, LastArg(parts, i)))
  }

  lemma ValueStep(parts: seq<Part>, n: nat, name: string)
    requires n < |parts|
    ensures Get(ValueMap(parts, n + 1), name) ==
      Get(ValueMap(parts, n), name) + if ValueCalled(parts, name)(n) then [parts[n].body] else []
  {
  }

  /** Under a name are the contents of the parts of that name without a file name, in stream order. */
  lemma {:induction false} ValuePositions(parts: seq<Part>, n: nat, name: string)
    requires n <= |parts|
    ensures Placed(Get(ValueMap(parts, n), name), n, ValueCalled(parts, name), Bodies(parts))
  {
    if n == 0 {
      NonePlaced(ValueCalled(parts, name), Bodies(parts));
    } else {
      ValuePositions(parts, n - 1, name);
      ValueStep(parts, n - 1, name);
      PlacedStep(Get(ValueMap(parts, n - 1), name), n - 1, ValueCalled(parts, name), Bodies(parts));
    }
  }

  /** The files are the parts with both names, in stream order, with the p_arg_names value in force. */
  lemma {:induction false} UploadPositions(parts: seq<Part>, n: nat)
    requires n <= |parts|
    ensures Placed(Uploads(parts, n), n, FileAt(parts), AsUploads(parts))
  {
    if n == 0 {
      NonePlaced(FileAt(parts), AsUploads(parts));
    } else {
      UploadPositions(parts, n - 1);
      PlacedStep(Uploads(parts, n - 1), n - 1, FileAt(parts), AsUploads(parts));
    }
  }

  lemma ArgStep(parts: seq<Part>, n: nat)
    requires n < |parts|
    ensures LastArg(parts, n + 1) == if ArgNames(parts, n) then parts[n].body else LastArg(parts, n)
    ensures LastArg(parts, 0) == []
  {
    if ArgNames(parts, n) { assert parts[n].formName[0] == 'p'; }
  }

  predicate ArgNames(parts: seq<Part>, i: nat)
    requires i < |parts|
  {
    parts[i].formName == "p_arg_names" && parts[i].fileName == ""
  }

  /** In force is the last value called p_arg_names, and nothing before the first. */
  lemma {:induction false} ArgInForce(parts: seq<Part>, n: nat)
    requires n <= |parts|
    ensures forall i | 0 <= i < n && LastArgNames(parts, i, n) :: LastArg(parts, n) == parts[i].body
    ensures (forall i | 0 <= i < n :: !ArgNames(parts, i)) ==> LastArg(parts, n) == []
  {
    if n > 0 {
      ArgInForce(parts, n - 1);
      ArgStep(parts, n - 1);
      forall i | 0 <= i < n && LastArgNames(parts, i, n) ensures LastArg(parts, n) == parts[i].body {
        if i < n - 1 { assert LastArgNames(parts, i, n - 1); }
      }
    }
  }

  /** Among the first `n` parts, `i` is the last value called p_arg_names. */
  predicate LastArgNames(parts: seq<Part>, i: nat, n: nat)
    requires i < n <= |parts|
  {
    ArgNames(parts, i) && forall j | i < j < n :: !ArgNames(parts, j)
  }

  function NameAt(uploads: seq<Upload>, name: string): nat -> bool {
    (j: nat) => j < |uploads| && uploads[j].name == name
  }

  /** Under a name are the items of the files of that name, in order. */
  lemma {:induction false} FiledPositions<T>(uploads: seq<Upload>, items: seq<T>, name: string)
    requires |uploads| == |items|
    ensures Placed(Get(Filed(uploads, items), name), |uploads|, NameAt(uploads, name), items)
  {
    if uploads == [] {
      NonePlaced(NameAt(uploads, name), items);
    } else {
      var n, p, q := |uploads| - 1, NameAt(Init(uploads), name), NameAt(uploads, name);
      var before := Get(Filed(Init(uploads), Init(items)), name);
      FiledPositions(Init(uploads), Init(items), name);
      PlacedAlike(before, n, p, q, Init(items), items);
      PlacedStep(before, n, q, items);
    }
  }

  /** The contents of the named values, one after the other. */
  function ValueBodies(parts: seq<Part>): seq<Bytes> {
    if parts == [] then []
    else (if parts[0].formName != "" && parts[0].fileName == "" then [parts[0].body] else []) + ValueBodies(parts[1..])
  }

  lemma {:induction false} ValueBodiesConcat(a: seq<Part>, b: seq<Part>)
    ensures ValueBodies(a + b) == ValueBodies(a) + ValueBodies(b)
  {
    if a == [] {
      assert a + b == b;
    } else {
      assert (a + b)[1..] == a[1..] + b;
      ValueBodiesConcat(a[1..], b);
    }
  }

  /** What counts against the 10 MB are the bytes of the named values, all of them and nothing else. */
  lemma {:induction false} TotalIsValues(parts: seq<Part>, n: nat)
    requires n <= |parts|
    ensures Total(parts, n) == |Flatten(ValueBodies(parts[..n]))|
  {
    if n > 0 {
      TotalIsValues(parts, n - 1);
      assert parts[..n] == parts[..n - 1] + [parts[n - 1]];
      ValueBodiesConcat(parts[..n - 1], [parts[n - 1]]);
      LastBody(parts[n - 1]);
      FlattenConcat(ValueBodies(parts[..n - 1]), ValueBodies([parts[n - 1]]));
    }
  }

  lemma LastBody(p: Part)
    ensures |Flatten(ValueBodies([p]))| == if p.formName != "" && p.fileName == "" then |p.body| else 0
  {
    assert [p][1..] == [] && ValueBodies([]) == [];
    if p.formName != "" && p.fileName == "" {
      assert ValueBodies([p]) == [p.body] && [p.body][1..] == [] && Flatten([p.body]) == p.body + [];
    }
  }

  /** A stream is sound exactly when it ends properly and every part can be read to its end. */
  lemma NoFaultsExactly(s: Stream)
    ensures NoFaults(s) <==> s.clean && forall p <- s.parts :: !p.faulty
  {
    SoundExactly(s.parts, |s.parts|);
    assert s.parts[..|s.parts|] == s.parts;
  }

  lemma {:induction false} SoundExactly(parts: seq<Part>, n: nat)
    requires n <= |parts|
    ensures Sound(parts, n) <==> forall p <- parts[..n] :: !p.faulty
  {
    if n > 0 {
      SoundExactly(parts, n - 1);
      assert parts[..n] == parts[..n - 1] + [parts[n - 1]];
    }
  }
}
