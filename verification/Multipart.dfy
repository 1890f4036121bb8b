/** The multipart reader: `ReadFormEx`, `Form.RemoveAll`, `FileHeader.Open` and `readFileItems`. */
module Multipart {
  import opened Options
  import opened Bytes
  import opened FormParts

  const MAX_INT64: int := 0x7FFF_FFFF_FFFF_FFFF

  /** 10 << 20 */
  const MAX_VALUE_BYTES := 10 * 1024 * 1024

  predicate Int64(n: int) { -MAX_INT64 - 1 <= n <= MAX_INT64 }

  function Int64Inc(n: int): (r: int)
    requires Int64(n)
    ensures Int64(r)
  {
    if n == MAX_INT64 then -MAX_INT64 - 1 else n + 1
  }

  /** io.CopyN into a fresh buffer: the bytes copied, and whether the reader failed. */
  function CopyN(p: Part, n: int): (r: (Bytes, bool)) {
    if n <= 0 then ([], false)
    else if |p.body| >= n then (p.body[..n], false)
    else (p.body, p.faulty)
  }

  /** What happens when a file is spilled to disk. */
  datatype Storage = Stored | NoTempFile | WriteFails

  class Disk {
    var files: map<nat, Bytes>
    var next: nat

    ghost predicate Valid()
      reads this
    {
      forall f <- files :: f < next
    }

    constructor ()
      ensures Valid() && files == map[]
    {
      files, next := map[], 0;
    }

    /** A new file, with the given content once it has been written. */
    method Create(content: Bytes) returns (f: nat)
      requires Valid()
      modifies this
      ensures Valid() && f !in old(files) && files == old(files)[f := content]
    {
      f := next;
      files := files[f := content];
      next := next + 1;
    }

    method Remove(f: nat)
      requires Valid()
      modifies this
      ensures Valid() && files == old(files) - {f}
    {
      files := files - {f};
    }
  }

  datatype FileHeader = FileHeader(fileName: string, content: Option<Bytes>, tmpfile: Option<nat>, lastArg: Bytes)

  datatype Form = Form(value: Multimap<Bytes>, file: Multimap<FileHeader>)

  datatype ReadError = PartError | BodyError | TooLarge | StorageError

  datatype Read<T> = Success(value: T) | Failure(error: ReadError)

  /** The temporary files that some headers name. */
  function TmpFiles(headers: seq<FileHeader>): set<nat> {
    set h | h in headers && h.tmpfile.Some? :: h.tmpfile.value
  }

  function FormTmpFiles(file: Multimap<FileHeader>): set<nat> {
    set k, h | k in file && h in file[k] && h.tmpfile.Some? :: h.tmpfile.value
  }

  function MemoryUsed(headers: seq<FileHeader>): nat {
    if headers == [] then 0
    else MemoryUsed(Init(headers)) + if Last(headers).content.Some? then |Last(headers).content.value| else 0
  }

  /** How many bytes of the first `j` files are kept in memory. */
  function KeptBefore(uploads: seq<Upload>, j: nat, maxMemory: int): nat
    requires j <= |uploads|
    decreases j, 0
  {
    if j == 0 then 0
    else KeptBefore(uploads, j - 1, maxMemory) + if Fits(uploads, j - 1, maxMemory) then |uploads[j - 1].body| else 0
  }

  /** File `j` fits into what the files kept before it leave of the limit. */
  predicate Fits(uploads: seq<Upload>, j: nat, maxMemory: int)
    requires j < |uploads|
    decreases j, 1
  {
    KeptBefore(uploads, j, maxMemory) + |uploads[j].body| <= maxMemory
  }

  lemma {:induction false} KeptOfPrefix(uploads: seq<Upload>, u: Upload, j: nat, maxMemory: int)
    requires j <= |uploads|
    ensures KeptBefore(uploads + [u], j, maxMemory) == KeptBefore(uploads, j, maxMemory)
    ensures j < |uploads| ==> (Fits(uploads + [u], j, maxMemory) <==> Fits(uploads, j, maxMemory))
  {
    if j > 0 { KeptOfPrefix(uploads, u, j - 1, maxMemory); }
  }

  /** In memory are exactly the files that fit; all of them if the limit is the greatest int64. */
  predicate MemoryOk(uploads: seq<Upload>, headers: seq<FileHeader>, maxMemory: int) {
    && |headers| == |uploads|
    && (maxMemory != MAX_INT64 ==> MemoryUsed(headers) == KeptBefore(uploads, |uploads|, maxMemory))
    && forall j | 0 <= j < |uploads| ::
         headers[j].content.Some? <==> maxMemory == MAX_INT64 || Fits(uploads, j, maxMemory)
  }

  /** Part `i` is a file that has to be spilled. */
  predicate Spills(parts: seq<Part>, i: nat, maxMemory: int)
    requires i < |parts|
  {
    parts[i].IsFile() && maxMemory != MAX_INT64
    && (var uploads := Uploads(parts, i + 1); !Fits(uploads, |uploads| - 1, maxMemory))
  }

  /** Whatever among the first `n` parts has to be spilled can be stored. */
  ghost predicate SpillsStored(parts: seq<Part>, n: nat, maxMemory: int, storage: nat -> Storage)
    requires n <= |parts|
  {
    n == 0 || (SpillsStored(parts, n - 1, maxMemory, storage)
               && (Spills(parts, n - 1, maxMemory) ==> storage(n - 1).Stored?))
  }

  lemma {:induction false} SpillsStoredEach(parts: seq<Part>, n: nat, maxMemory: int, storage: nat -> Storage)
    requires n <= |parts|
    ensures SpillsStored(parts, n, maxMemory, storage) <==>
      forall i | 0 <= i < n && Spills(parts, i, maxMemory) :: storage(i).Stored?
  {
    if n > 0 { SpillsStoredEach(parts, n - 1, maxMemory, storage); }
  }

  lemma SpillsExactly(parts: seq<Part>, n: nat, headers: seq<FileHeader>, maxMemory: int)
    requires n < |parts| && parts[n].IsFile() && MemoryOk(Uploads(parts, n), headers, maxMemory)
    ensures Spills(parts, n, maxMemory) <==>
      maxMemory != MAX_INT64 && |parts[n].body| > maxMemory - MemoryUsed(headers)
  {
    var p, uploads := parts[n], Uploads(parts, n);
    KeptOfPrefix(uploads, Upload(p.formName, p.fileName, p.body, LastArg(parts, n)), |uploads|, maxMemory);
  }

  lemma MemoryAfterHeader(uploads: seq<Upload>, u: Upload, headers: seq<FileHeader>, h: FileHeader, maxMemory: int)
    requires MemoryOk(uploads, headers, maxMemory)
    requires h.content.Some? ==> |h.content.value| == if maxMemory == MAX_INT64 then 0 else |u.body|
    requires h.content.Some? <==> maxMemory == MAX_INT64 || |u.body| <= maxMemory - MemoryUsed(headers)
    ensures MemoryOk(uploads + [u], headers + [h], maxMemory)
    ensures maxMemory == MAX_INT64 || (h.content.Some? <==> Fits(uploads + [u], |uploads|, maxMemory))
  {
    assert Init(headers + [h]) == headers && Last(headers + [h]) == h;
    forall j | 0 <= j <= |uploads|
      ensures KeptBefore(uploads + [u], j, maxMemory) == KeptBefore(uploads, j, maxMemory)
      ensures j < |uploads| ==> (Fits(uploads + [u], j, maxMemory) <==> Fits(uploads, j, maxMemory))
    {
      KeptOfPrefix(uploads, u, j, maxMemory);
    }
  }

  /** FileHeader.Open and reading to the end: None where opening fails. */
  function Opened(h: FileHeader, files: map<nat, Bytes>): Option<Bytes> {
    if h.content.Some? then h.content
    else if h.tmpfile.Some? && h.tmpfile.value in files then Some(files[h.tmpfile.value])
    else None
  }

  /** Form.RemoveAll. */
  method RemoveAll(disk: Disk, form: Form)
    requires disk.Valid()
    modifies disk
    ensures disk.Valid() && disk.files == old(disk.files) - FormTmpFiles(form.file)
  {
    var names := form.file.Keys;
    ghost var done: set<nat> := {};
    while names != {}
      invariant disk.Valid() && names <= form.file.Keys
      invariant done ==
        set k, h | k in form.file && k !in names && h in form.file[k] && h.tmpfile.Some? :: h.tmpfile.value
      invariant disk.files == old(disk.files) - done
    {
      var name :| name in names;
      RemoveHeaders(disk, form.file[name]);
      names := names - {name};
      done := done + TmpFiles(form.file[name]);
    }
  }

  method RemoveHeaders(disk: Disk, headers: seq<FileHeader>)
    requires disk.Valid()
    modifies disk
    ensures disk.Valid() && disk.files == old(disk.files) - TmpFiles(headers)
  {
    assert headers[..0] == [];
    for i := 0 to |headers|
      invariant disk.Valid() && disk.files == old(disk.files) - TmpFiles(headers[..i])
    {
      if headers[i].tmpfile.Some? {
        disk.Remove(headers[i].tmpfile.value);
      }
      TmpFilesOneMore(headers, i);
    }
    assert headers[..|headers|] == headers;
  }

  lemma TmpFilesOneMore(headers: seq<FileHeader>, i: nat)
    requires i < |headers|
    ensures TmpFiles(headers[..i + 1])
         == TmpFiles(headers[..i]) + if headers[i].tmpfile.Some? then {headers[i].tmpfile.value} else {}
  {
    assert headers[..i + 1] == headers[..i] + [headers[i]];
  }

  /** One file part: kept in memory if it fits into what is left of `maxMemory`, else spilled. */
  method StoreFile(disk: Disk, p: Part, lastArg: Bytes, maxMemory: int, storage: Storage)
    returns (r: Read<FileHeader>, left: int)
    requires disk.Valid() && Int64(maxMemory)
    modifies disk
    ensures disk.Valid() && Int64(left)
    ensures r.Success? <==>
      maxMemory == MAX_INT64 || (!p.faulty && (|p.body| <= maxMemory || storage.Stored?))
    ensures r.Failure? ==> disk.files == old(disk.files)
    ensures r.Success? ==> r.value.fileName == p.fileName && r.value.lastArg == lastArg
    ensures r.Success? ==> (r.value.content.Some? <==> maxMemory == MAX_INT64 || |p.body| <= maxMemory)
    ensures r.Success? && r.value.content.Some? ==>
      && r.value.tmpfile.None? && disk.files == old(disk.files)
      && left == maxMemory - |r.value.content.value| && left >= 0
    ensures r.Success? && r.value.content.None? ==>
      && left == maxMemory && r.value.tmpfile.Some? && r.value.tmpfile.value !in old(disk.files)
      && disk.files == old(disk.files)[r.value.tmpfile.value := p.body]
    ensures r.Success? ==> Opened(r.value, disk.files) == Some(if maxMemory == MAX_INT64 then [] else p.body)
  {
    left := maxMemory;
    var (b, failed) := CopyN(p, Int64Inc(maxMemory));
    if failed {
      return Failure(BodyError), left;
    }
    if |b| > maxMemory {
      if storage.NoTempFile? {
        return Failure(StorageError), left;
      }
      var f := disk.Create(p.body);
      if p.faulty || storage.WriteFails? {
        disk.Remove(f);
        return Failure(if p.faulty then BodyError else StorageError), left;
      }
      return Success(FileHeader(p.fileName, None, Some(f), lastArg)), left;
    }
    left := maxMemory - |b|;
    return Success(FileHeader(p.fileName, Some(b), None, lastArg)), left;
  }

  /** The headers of a form, in stream order, are those of the uploads: file names, bodies (unless
      the limit is the greatest int64, whose successor is negative) and p_arg_names values. */
  predicate HeadersOk(uploads: seq<Upload>, headers: seq<FileHeader>, files: map<nat, Bytes>, maxMemory: int) {
    && |headers| == |uploads|
    && forall j | 0 <= j < |headers| ::
         && headers[j].fileName == uploads[j].fileName && headers[j].lastArg == uploads[j].lastArg
         && Opened(headers[j], files) == Some(if maxMemory == MAX_INT64 then [] else uploads[j].body)
  }

  /** The reading loop's bookkeeping of files: `now` are the files on disk, `before` those at the
      start. Every new file belongs to one header, and no header names an old one. */
  predicate DiskOk(headers: seq<FileHeader>, before: map<nat, Bytes>, now: map<nat, Bytes>) {
    && now.Keys == before.Keys + TmpFiles(headers) && before.Keys !! TmpFiles(headers)
    && forall f <- before :: now[f] == before[f]
  }

  /** `h` is a header for `u` whose temporary file, if any, is new. */
  predicate NewHeader(u: Upload, h: FileHeader, mid: map<nat, Bytes>, now: map<nat, Bytes>, maxMemory: int) {
    && h.fileName == u.fileName && h.lastArg == u.lastArg
    && Opened(h, now) == Some(if maxMemory == MAX_INT64 then [] else u.body)
    && if h.tmpfile.None? then now == mid
       else h.tmpfile.value !in mid && now == mid[h.tmpfile.value := u.body]
  }

  lemma DiskAfterHeader(headers: seq<FileHeader>, u: Upload, h: FileHeader,
                        before: map<nat, Bytes>, mid: map<nat, Bytes>, now: map<nat, Bytes>, maxMemory: int)
    requires DiskOk(headers, before, mid) && NewHeader(u, h, mid, now, maxMemory)
    ensures DiskOk(headers + [h], before, now)
  {
    var all := headers + [h];
    assert all[..|headers| + 1] == all && all[..|headers|] == headers;
    TmpFilesOneMore(all, |headers|);
  }

  lemma HeadersAfterHeader(uploads: seq<Upload>, u: Upload, headers: seq<FileHeader>, h: FileHeader,
                           mid: map<nat, Bytes>, now: map<nat, Bytes>, maxMemory: int)
    requires HeadersOk(uploads, headers, mid, maxMemory) && NewHeader(u, h, mid, now, maxMemory)
    ensures HeadersOk(uploads + [u], headers + [h], now, maxMemory)
  {
    forall j | 0 <= j < |headers| ensures Opened(headers[j], now) == Opened(headers[j], mid) {
    }
  }

  /** Removing the files of all headers brings the disk back to where it was. */
  lemma AllRemoved(headers: seq<FileHeader>, before: map<nat, Bytes>, now: map<nat, Bytes>)
    requires DiskOk(headers, before, now)
    ensures now - TmpFiles(headers) == before
  {
  }

  lemma {:induction false} FiledTmpFiles(uploads: seq<Upload>, headers: seq<FileHeader>)
    requires |uploads| == |headers|
    ensures FormTmpFiles(Filed(uploads, headers)) == TmpFiles(headers)
  {
    if uploads != [] {
      var n := |headers| - 1;
      var m, name, h := Filed(Init(uploads), Init(headers)), Last(uploads).name, Last(headers);
      FiledTmpFiles(Init(uploads), Init(headers));
      assert headers[..n + 1] == headers;
      TmpFilesOneMore(headers, n);
      AppendTmpFiles(m, name, h);
    }
  }

  lemma AppendTmpFiles(m: Multimap<FileHeader>, name: string, h: FileHeader)
    ensures FormTmpFiles(Append(m, name, h)) == FormTmpFiles(m) + if h.tmpfile.Some? then {h.tmpfile.value} else {}
  {
    var a := Append(m, name, h);
    assert a[name] == Get(m, name) + [h];
    forall f | f in FormTmpFiles(a) ensures f in FormTmpFiles(m) || (h.tmpfile.Some? && f == h.tmpfile.value) {
      var k: string, g: FileHeader :| k in a && g in a[k] && g.tmpfile.Some? && g.tmpfile.value == f;
      if k == name && g !in Get(m, name) { assert g == h; }
    }
    forall f | f in FormTmpFiles(m) ensures f in FormTmpFiles(a) {
      var k: string, g: FileHeader :| k in m && g in m[k] && g.tmpfile.Some? && g.tmpfile.value == f;
      assert k in a && g in a[k];
    }
    if h.tmpfile.Some? {
      assert name in a && h in a[name];
    }
  }

  /** A value part: the whole body, and what is left of the budget. */
  method ReadValue(p: Part, maxValueBytes: int) returns (r: Read<Bytes>, left: int)
    requires maxValueBytes > 0
    ensures r.Success? <==> |p.body| < maxValueBytes && !p.faulty
    ensures r.Success? ==> r.value == p.body && left == maxValueBytes - |p.body| > 0
    ensures r.Failure? ==> r.error == if |p.body| < maxValueBytes then BodyError else TooLarge
  {
    var (b, failed) := CopyN(p, maxValueBytes);
    left := maxValueBytes;
    if failed {
      return Failure(BodyError), left;
    }
    left := maxValueBytes - |b|;
    if left == 0 {
      return Failure(TooLarge), left;
    }
    return Success(b), left;
  }

  /** The local variables of the loop. */
  datatype Loop = Loop(form: Form, lastArgNames: Bytes, maxValueBytes: int, maxMemory: int, pending: bool)

  /** What the loop has read is what the parts so far stand for. */
  ghost predicate ValuesRead(parts: seq<Part>, n: nat, l: Loop)
    requires n <= |parts|
  {
    && l.form.value == ValueMap(parts, n) && l.lastArgNames == LastArg(parts, n)
    && l.maxValueBytes == MAX_VALUE_BYTES - Total(parts, n) > 0
  }

  ghost predicate FilesRead(
      parts: seq<Part>, n: nat, l: Loop, uploads: seq<Upload>, headers: seq<FileHeader>, maxMemory: int)
    requires n <= |parts|
  {
    && uploads == Uploads(parts, n) && MemoryOk(uploads, headers, maxMemory)
    && l.maxMemory == maxMemory - MemoryUsed(headers) && (MemoryUsed(headers) > 0 ==> l.maxMemory >= 0)
    && (l.maxMemory == MAX_INT64 <==> maxMemory == MAX_INT64) && Int64(l.maxMemory)
  }

  /** One value part or nameless part of the loop of `ReadFormEx`. */
  method ReadValuePart(p: Part, l: Loop, ghost parts: seq<Part>, ghost n: nat) returns (r: Read<Loop>)
    requires n < |parts| && parts[n] == p && !p.IsFile() && ValuesRead(parts, n, l)
    ensures r.Success? ==>
      && ValuesRead(parts, n + 1, r.value) && r.value.pending == p.faulty
      && r.value.form.file == l.form.file && r.value.maxMemory == l.maxMemory
    ensures r.Failure? ==> p.faulty || Total(parts, n + 1) >= MAX_VALUE_BYTES
  {
    if p.formName == "" {
      return Success(l.(pending := p.faulty));
    }
    var value, left := ReadValue(p, l.maxValueBytes);
    if value.Failure? {
      return Failure(value.error);
    }
    var form := l.form.(value := Append(l.form.value, p.formName, value.value));
    var lastArgNames := if p.formName == P_ARG_NAMES then value.value else l.lastArgNames;
    return Success(Loop(form, lastArgNames, left, l.maxMemory, p.faulty));
  }

  /** One file part. */
  method ReadFilePart(disk: Disk, p: Part, l: Loop, storage: Storage, ghost parts: seq<Part>, ghost n: nat,
                      ghost uploads: seq<Upload>, ghost headers: seq<FileHeader>, ghost maxMemory: int)
    returns (r: Read<Loop>, ghost u: Upload, ghost h: FileHeader)
    requires n < |parts| && parts[n] == p && p.IsFile() && disk.Valid() && ValuesRead(parts, n, l)
    requires FilesRead(parts, n, l, uploads, headers, maxMemory)
    modifies disk
    ensures disk.Valid()
    ensures r.Success? ==>
      && ValuesRead(parts, n + 1, r.value) && r.value.pending == p.faulty
      && FilesRead(parts, n + 1, r.value, uploads + [u], headers + [h], maxMemory)
      && NewHeader(u, h, old(disk.files), disk.files, maxMemory)
      && r.value.form == Form(l.form.value, Append(l.form.file, u.name, h))
    ensures r.Failure? ==> disk.files == old(disk.files)
    ensures r.Failure? ==> p.faulty || (Spills(parts, n, maxMemory) && !storage.Stored?)
    ensures r.Success? && Spills(parts, n, maxMemory) ==> storage.Stored?
  {
    u, h := Upload(p.formName, p.fileName, p.body, l.lastArgNames), FileHeader("", None, None, []);
    SpillsExactly(parts, n, headers, maxMemory);
    var fh, left := StoreFile(disk, p, l.lastArgNames, l.maxMemory, storage);
    if fh.Failure? {
      return Failure(fh.error), u, h;
    }
    h := fh.value;
    MemoryAfterHeader(uploads, u, headers, h, maxMemory);
    assert Init(headers + [h]) == headers && Last(headers + [h]) == h;
    assert Init(uploads + [u]) == uploads && Last(uploads + [u]) == u;
    var form := l.form.(file := Append(l.form.file, p.formName, fh.value));
    r := Success(l.(form := form, maxMemory := left, pending := p.faulty));
  }

  /** The form holds `headers`, filed as the uploads say, and the disk holds their files. */
  ghost predicate FormOk(form: Form, uploads: seq<Upload>, headers: seq<FileHeader>, maxMemory: int,
                         before: map<nat, Bytes>, now: map<nat, Bytes>) {
    && HeadersOk(uploads, headers, now, maxMemory) && DiskOk(headers, before, now)
    && form.file == Filed(uploads, headers)
  }

  lemma FormAfterHeader(form: Form, uploads: seq<Upload>, headers: seq<FileHeader>, maxMemory: int,
                        before: map<nat, Bytes>, mid: map<nat, Bytes>, now: map<nat, Bytes>,
                        u: Upload, h: FileHeader, value: Multimap<Bytes>)
    requires FormOk(form, uploads, headers, maxMemory, before, mid) && NewHeader(u, h, mid, now, maxMemory)
    ensures FormOk(Form(value, Append(form.file, u.name, h)), uploads + [u], headers + [h], maxMemory, before, now)
  {
    DiskAfterHeader(headers, u, h, before, mid, now, maxMemory);
    HeadersAfterHeader(uploads, u, headers, h, mid, now, maxMemory);
    assert Init(headers + [h]) == headers && Last(headers + [h]) == h;
    assert Init(uploads + [u]) == uploads && Last(uploads + [u]) == u;
  }

  /** One turn of the loop of `ReadFormEx`. */
  method ReadPart(disk: Disk, p: Part, l: Loop, storage: Storage, ghost parts: seq<Part>, ghost n: nat,
                  ghost uploads: seq<Upload>, ghost headers: seq<FileHeader>, ghost maxMemory: int,
                  ghost before: map<nat, Bytes>)
    returns (r: Read<Loop>, ghost uploads': seq<Upload>, ghost headers': seq<FileHeader>)
    requires n < |parts| && parts[n] == p && disk.Valid() && ValuesRead(parts, n, l)
    requires FilesRead(parts, n, l, uploads, headers, maxMemory)
    requires FormOk(l.form, uploads, headers, maxMemory, before, disk.files)
    modifies disk
    ensures disk.Valid()
    ensures r.Success? ==> ValuesRead(parts, n + 1, r.value) && r.value.pending == p.faulty
    ensures r.Success? ==> FilesRead(parts, n + 1, r.value, uploads', headers', maxMemory)
    ensures r.Success? ==> FormOk(r.value.form, uploads', headers', maxMemory, before, disk.files)
    ensures r.Failure? ==> disk.files == old(disk.files) && uploads' == uploads && headers' == headers
    ensures r.Failure? ==>
      p.faulty || Total(parts, n + 1) >= MAX_VALUE_BYTES || (Spills(parts, n, maxMemory) && !storage.Stored?)
    ensures r.Success? && Spills(parts, n, maxMemory) ==> storage.Stored?
  {
    uploads', headers' := uploads, headers;
    if p.formName != "" && p.fileName != "" {
      ghost var u: Upload;
      ghost var h: FileHeader;
      r, u, h := ReadFilePart(disk, p, l, storage, parts, n, uploads, headers, maxMemory);
      if r.Success? {
        FormAfterHeader(l.form, uploads, headers, maxMemory, before, old(disk.files), disk.files, u, h, l.form.value);
        uploads', headers' := uploads + [u], headers + [h];
      }
    } else {
      r := ReadValuePart(p, l, parts, n);
    }
  }

  /** After `n` parts that were read; `before` are the files on disk at the start, `now` those on it. */
  ghost predicate LoopOk(s: Stream, n: nat, l: Loop, uploads: seq<Upload>, headers: seq<FileHeader>, maxMemory: int,
                         storage: nat -> Storage, before: map<nat, Bytes>, now: map<nat, Bytes>)
  {
    && n <= |s.parts| && FormOk(l.form, uploads, headers, maxMemory, before, now)
    && ValuesRead(s.parts, n, l) && FilesRead(s.parts, n, l, uploads, headers, maxMemory)
    && (l.pending <==> !Sound(s.parts, n)) && SpillsStored(s.parts, n, maxMemory, storage)
  }

  /** Every part has been read to its end, and the form holds what the stream stands for. */
  ghost predicate Complete(s: Stream, form: Form, uploads: seq<Upload>, headers: seq<FileHeader>, maxMemory: int,
                           storage: nat -> Storage) {
    && NoFaults(s) && Total(s.parts, |s.parts|) < MAX_VALUE_BYTES && SpillsStored(s.parts, |s.parts|, maxMemory, storage)
    && uploads == Uploads(s.parts, |s.parts|) && form.value == ValueMap(s.parts, |s.parts|)
    && MemoryOk(uploads, headers, maxMemory) && MemoryUsed(headers) <= if maxMemory > 0 then maxMemory else 0
  }

  /** Part `n` cannot be read or stored, or there is too much. */
  ghost predicate TurnFailed(s: Stream, n: nat, maxMemory: int, storage: nat -> Storage)
    requires n < |s.parts|
  {
    || s.parts[n].faulty || Total(s.parts, n + 1) >= MAX_VALUE_BYTES
    || (Spills(s.parts, n, maxMemory) && !storage(n).Stored?)
  }

  ghost predicate Fails(s: Stream, n: nat, maxMemory: int, storage: nat -> Storage) {
    || !NoFaults(s) || Total(s.parts, |s.parts|) >= MAX_VALUE_BYTES
    || (n < |s.parts| && Spills(s.parts, n, maxMemory) && !storage(n).Stored?)
  }

  lemma TurnFails(s: Stream, n: nat, maxMemory: int, storage: nat -> Storage)
    requires n < |s.parts|
    ensures TurnFailed(s, n, maxMemory, storage) || !Sound(s.parts, n) ==> Fails(s, n, maxMemory, storage)
  {
    TotalsGrow(s.parts, n);
    TotalsGrow(s.parts, n + 1);
  }

  lemma LoopEnded(s: Stream, n: nat, l: Loop, success: bool, uploads: seq<Upload>, headers: seq<FileHeader>,
                  maxMemory: int, storage: nat -> Storage, before: map<nat, Bytes>, now: map<nat, Bytes>)
    requires LoopOk(s, n, l, uploads, headers, maxMemory, storage, before, now)
    requires success ==> n == |s.parts| && !l.pending && s.clean
    requires !success ==>
      l.pending || (n == |s.parts| && !s.clean) || (n < |s.parts| && TurnFailed(s, n, maxMemory, storage))
    ensures FormOk(l.form, uploads, headers, maxMemory, before, now)
    ensures if success then Complete(s, l.form, uploads, headers, maxMemory, storage) else Fails(s, n, maxMemory, storage)
  {
    TotalsGrow(s.parts, n);
    if n < |s.parts| { TurnFails(s, n, maxMemory, storage); }
  }

  lemma LoopBegins(s: Stream, maxMemory: int, storage: nat -> Storage, now: map<nat, Bytes>)
    requires Int64(maxMemory)
    ensures LoopOk(s, 0, Loop(Form(map[], map[]), [], MAX_VALUE_BYTES, maxMemory, false), [], [], maxMemory, storage,
                   now, now)
  {
  }

  /** A turn in which the part before has been read to its end. */
  method ReadTurn(disk: Disk, s: Stream, n: nat, l: Loop, storage: nat -> Storage, ghost uploads: seq<Upload>,
                  ghost headers: seq<FileHeader>, ghost maxMemory: int, ghost before: map<nat, Bytes>)
    returns (r: Read<Loop>, ghost uploads': seq<Upload>, ghost headers': seq<FileHeader>)
    requires n < |s.parts| && disk.Valid() && !l.pending
    requires LoopOk(s, n, l, uploads, headers, maxMemory, storage, before, disk.files)
    modifies disk
    ensures disk.Valid()
    ensures r.Success? ==> LoopOk(s, n + 1, r.value, uploads', headers', maxMemory, storage, before, disk.files)
    ensures r.Failure? ==> disk.files == old(disk.files) && uploads' == uploads && headers' == headers
    ensures r.Failure? ==> TurnFailed(s, n, maxMemory, storage)
  {
    r, uploads', headers' :=
      ReadPart(disk, s.parts[n], l, storage(n), s.parts, n, uploads, headers, maxMemory, before);
  }

  /** The loop of `ReadFormEx`, without its deferred clean-up: where it stops, what it has read by then, and why it
      stops there. `headers` are the headers filed so far, in stream order. */
  method ReadParts(disk: Disk, s: Stream, maxMemory: int, storage: nat -> Storage)
    returns (l: Loop, error: Option<ReadError>, ghost uploads: seq<Upload>, ghost headers: seq<FileHeader>,
             ghost last: nat)
    requires disk.Valid() && Int64(maxMemory)
    modifies disk
    ensures disk.Valid() && last <= |s.parts|
    ensures forall n | n == last :: LoopOk(s, n, l, uploads, headers, maxMemory, storage, old(disk.files), disk.files)
    ensures error.None? ==> last == |s.parts| && !l.pending && s.clean
    ensures error.Some? ==>
      l.pending || (last == |s.parts| && !s.clean) || (last < |s.parts| && TurnFailed(s, last, maxMemory, storage))
  {
    uploads, headers, last := [], [], 0;
    l := Loop(Form(map[], map[]), [], MAX_VALUE_BYTES, maxMemory, false);
    LoopBegins(s, maxMemory, storage, disk.files);
    var i := 0;
    while i < |s.parts|
      invariant 0 <= i <= |s.parts| && disk.Valid()
      invariant forall n | n == i :: LoopOk(s, n, l, uploads, headers, maxMemory, storage, old(disk.files), disk.files)
    {
      if l.pending {
        return l, Some(PartError), uploads, headers, i;
      }
      var next: Read<Loop>;
      next, uploads, headers :=
        ReadTurn(disk, s, i, l, storage, uploads, headers, maxMemory, old(disk.files));
      if next.Failure? {
        return l, Some(next.error), uploads, headers, i;
      }
      l := next.value;
      i := i + 1;
    }
    return l, if l.pending || !s.clean then Some(PartError) else None, uploads, headers, i;
  }

  /** `ReadFormEx` succeeds exactly when no part fails, the named values total less than 10 MB and every file
      that does not fit into memory can be stored. A form it returns holds every named value and file of the
      stream in order, complete, the files that fit into what is left of `maxMemory` in memory and the others on
      disk; the files on disk are then exactly those it names. When it fails the disk is as it was. */
  method ReadFormEx(disk: Disk, s: Stream, maxMemory: int, storage: nat -> Storage)
    returns (r: Read<Form>, ghost headers: seq<FileHeader>)
    requires disk.Valid() && Int64(maxMemory)
    modifies disk
    ensures disk.Valid()
    ensures r.Success? <==>
      && NoFaults(s) && Total(s.parts, |s.parts|) < 10 * 1024 * 1024
      && forall i | 0 <= i < |s.parts| && Spills(s.parts, i, maxMemory) :: storage(i).Stored?
    ensures r.Success? ==> MemoryOk(Uploads(s.parts, |s.parts|), headers, maxMemory)
    ensures r.Success? ==> r.value.value == ValueMap(s.parts, |s.parts|)
    ensures r.Success? ==> HeadersOk(Uploads(s.parts, |s.parts|), headers, disk.files, maxMemory)
    ensures r.Success? ==> r.value.file == Filed(Uploads(s.parts, |s.parts|), headers)
    ensures r.Success? ==> MemoryUsed(headers) <= if maxMemory > 0 then maxMemory else 0
    ensures r.Success? ==> disk.files.Keys == old(disk.files.Keys) + FormTmpFiles(r.value.file)
    ensures r.Success? ==> old(disk.files.Keys) !! FormTmpFiles(r.value.file)
    ensures r.Failure? ==> disk.files == old(disk.files)
  {
    ghost var uploads, last;
    var l, error;
    l, error, uploads, headers, last := ReadParts(disk, s, maxMemory, storage);
    LoopEnded(s, last, l, error.None?, uploads, headers, maxMemory, storage, old(disk.files), disk.files);
    FiledTmpFiles(uploads, headers);
    SpillsStoredEach(s.parts, |s.parts|, maxMemory, storage);
    if error.Some? {
      AllRemoved(headers, old(disk.files), disk.files);
      RemoveAll(disk, l.form);
      return Failure(error.value), headers;
    }
    return Success(l.form), headers;
  }

  function Bodies(uploads: seq<Upload>): seq<Bytes> {
    if uploads == [] then [] else Bodies(Init(uploads)) + [Last(uploads).body]
  }

  lemma {:induction false} BodiesAt(uploads: seq<Upload>)
    ensures |Bodies(uploads)| == |uploads|
  {
    if uploads != [] { BodiesAt(Init(uploads)); }
  }

  /** The bodies of the files called `name`, in stream order. */
  function BodiesNamed(uploads: seq<Upload>, name: string): seq<Bytes> {
    BodiesAt(uploads);
    ItemsNamed(uploads, Bodies(uploads), name)
  }

  lemma BodiesNamedStep(uploads: seq<Upload>, name: string)
    requires uploads != []
    ensures BodiesNamed(uploads, name) ==
      BodiesNamed(Init(uploads), name) + if Last(uploads).name == name then [Last(uploads).body] else []
  {
    BodiesAt(Init(uploads));
    assert Init(Bodies(uploads)) == Bodies(Init(uploads)) && Last(Bodies(uploads)) == Last(uploads).body;
  }

  predicate NameReadsBack(form: Form, uploads: seq<Upload>, files: map<nat, Bytes>, name: string)
    requires name in form.file
  {
    && |form.file[name]| == |BodiesNamed(uploads, name)|
    && forall i | 0 <= i < |form.file[name]| :: Opened(form.file[name][i], files) == Some(BodiesNamed(uploads, name)[i])
  }

  /** Every file of the form, opened and read to its end, gives the body of its part. */
  predicate ReadsBack(form: Form, uploads: seq<Upload>, files: map<nat, Bytes>) {
    forall name <- form.file :: NameReadsBack(form, uploads, files, name)
  }

  lemma {:induction false} OpenedByName(uploads: seq<Upload>, headers: seq<FileHeader>, files: map<nat, Bytes>,
                                        maxMemory: int, name: string)
    requires HeadersOk(uploads, headers, files, maxMemory)
    ensures var hs, bodies := ItemsNamed(uploads, headers, name), BodiesNamed(uploads, name);
      && |hs| == |bodies|
      && forall i | 0 <= i < |hs| :: Opened(hs[i], files) == Some(if maxMemory == MAX_INT64 then [] else bodies[i])
    decreases |uploads|
  {
    if uploads != [] {
      OpenedByName(Init(uploads), Init(headers), files, maxMemory, name);
      BodiesNamedStep(uploads, name);
    }
  }

  lemma {:induction false} BodyIsNamed(uploads: seq<Upload>, j: nat)
    requires j < |uploads|
    ensures uploads[j].body in BodiesNamed(uploads, uploads[j].name)
    decreases |uploads|
  {
    BodiesNamedStep(uploads, uploads[j].name);
    if j < |uploads| - 1 {
      BodyIsNamed(Init(uploads), j);
    }
  }

  lemma {:induction false} AllEmpty(uploads: seq<Upload>, name: string)
    requires forall j | 0 <= j < |uploads| :: uploads[j].body == []
    ensures forall i | 0 <= i < |BodiesNamed(uploads, name)| :: BodiesNamed(uploads, name)[i] == []
    decreases |uploads|
  {
    if uploads != [] {
      assert Last(uploads).body == [] && forall j | 0 <= j < |Init(uploads)| :: Init(uploads)[j] == uploads[j];
      AllEmpty(Init(uploads), name);
      BodiesNamedStep(uploads, name);
    }
  }

  /** What Open gives for the files of one name. */
  lemma OpenedInForm(form: Form, uploads: seq<Upload>, headers: seq<FileHeader>, files: map<nat, Bytes>,
                     maxMemory: int, name: string)
    requires HeadersOk(uploads, headers, files, maxMemory) && form.file == Filed(uploads, headers)
    ensures name in form.file <==> BodiesNamed(uploads, name) != []
    ensures name in form.file ==> |form.file[name]| == |BodiesNamed(uploads, name)|
    ensures name in form.file ==> forall i | 0 <= i < |form.file[name]| ::
      Opened(form.file[name][i], files) == Some(if maxMemory == MAX_INT64 then [] else BodiesNamed(uploads, name)[i])
  {
    FiledByName(uploads, headers, name);
    OpenedByName(uploads, headers, files, maxMemory, name);
  }

  /** Reading the files back through Open gives the bodies, name by name and in order, exactly when the
      memory limit is not the greatest int64 or there is nothing to lose: one more than that limit is a
      negative count. */
  lemma ContentsKept(form: Form, uploads: seq<Upload>, headers: seq<FileHeader>, files: map<nat, Bytes>, maxMemory: int)
    requires HeadersOk(uploads, headers, files, maxMemory) && form.file == Filed(uploads, headers)
    ensures ReadsBack(form, uploads, files) <==>
      maxMemory != MAX_INT64 || forall j | 0 <= j < |uploads| :: uploads[j].body == []
  {
    if ReadsBack(form, uploads, files) && maxMemory == MAX_INT64 {
      forall j | 0 <= j < |uploads| ensures uploads[j].body == [] {
        var name := uploads[j].name;
        BodyIsNamed(uploads, j);
        OpenedInForm(form, uploads, headers, files, maxMemory, name);
        var i :| 0 <= i < |BodiesNamed(uploads, name)| && BodiesNamed(uploads, name)[i] == uploads[j].body;
        assert Opened(form.file[name][i], files) == Some(BodiesNamed(uploads, name)[i]);
      }
    }
    if maxMemory != MAX_INT64 || forall j | 0 <= j < |uploads| :: uploads[j].body == [] {
      forall name <- form.file ensures NameReadsBack(form, uploads, files, name) {
        OpenedInForm(form, uploads, headers, files, maxMemory, name);
        if maxMemory == MAX_INT64 { AllEmpty(uploads, name); }
      }
    }
  }

  function LastArgs(uploads: seq<Upload>): seq<Bytes> {
    seq(|uploads|, j requires 0 <= j < |uploads| => uploads[j].lastArg)
  }

  /** `readFileItems`: the same loop without the files' content. It succeeds exactly when no I/O fails
      and the named values total less than 10 MB, and files the p_arg_names values. */
  method ReadFileItems(s: Stream) returns (r: Read<Multimap<Bytes>>)
    ensures r.Success? <==> NoFaults(s) && Total(s.parts, |s.parts|) < 10 * 1024 * 1024
    ensures r.Success? ==> r.value == Items(Uploads(s.parts, |s.parts|))
  {
    var fileItems: Multimap<Bytes>, lastArgNames: Bytes := map[], [];
    var maxValueBytes, pending := MAX_VALUE_BYTES, false;
    var i := 0;
    while i < |s.parts|
      invariant 0 <= i <= |s.parts| && (pending <==> !Sound(s.parts, i))
      invariant fileItems == Items(Uploads(s.parts, i))
      invariant lastArgNames == LastArg(s.parts, i)
      invariant maxValueBytes == MAX_VALUE_BYTES - Total(s.parts, i) > 0
    {
      TotalsGrow(s.parts, i);
      if pending {
        return Failure(PartError);
      }
      TotalsGrow(s.parts, i + 1);
      var p := s.parts[i];
      pending := p.faulty;
      if p.formName == "" {
      } else if p.fileName == "" {
        var value, left := ReadValue(p, maxValueBytes);
        if value.Failure? {
          return Failure(value.error);
        }
        maxValueBytes := left;
        if p.formName == P_ARG_NAMES {
          lastArgNames := value.value;
        }
      } else {
        ItemsOneMore(Uploads(s.parts, i), Upload(p.formName, p.fileName, p.body, lastArgNames));
        fileItems := Append(fileItems, p.formName, lastArgNames);
      }
      i := i + 1;
    }
    if pending || !s.clean {
      return Failure(PartError);
    }
    return Success(fileItems);
  }

  /** The multimap of p_arg_names values of some uploads. */
  function Items(uploads: seq<Upload>): Multimap<Bytes> {
    Filed(uploads, LastArgs(uploads))
  }

  lemma ItemsOneMore(uploads: seq<Upload>, u: Upload)
    ensures Items(uploads + [u]) == Append(Items(uploads), u.name, u.lastArg)
  {
    assert Init(LastArgs(uploads + [u])) == LastArgs(uploads) && Last(LastArgs(uploads + [u])) == u.lastArg;
    assert Init(uploads + [u]) == uploads && Last(uploads + [u]) == u;
  }

  function LastArgsOf(headers: seq<FileHeader>): seq<Bytes> {
    seq(|headers|, j requires 0 <= j < |headers| => headers[j].lastArg)
  }

  lemma {:induction false} ItemsAgree(uploads: seq<Upload>, headers: seq<FileHeader>, name: string)
    requires |uploads| == |headers| && forall j | 0 <= j < |headers| :: headers[j].lastArg == uploads[j].lastArg
    ensures Get(Items(uploads), name) == LastArgsOf(Get(Filed(uploads, headers), name))
    ensures name in Items(uploads) <==> name in Filed(uploads, headers)
    decreases |uploads|
  {
    if uploads != [] {
      ItemsAgree(Init(uploads), Init(headers), name);
      assert Init(LastArgs(uploads)) == LastArgs(Init(uploads));
    }
  }

  /** On every stream that `ReadFormEx` accepts, what `readFileItems` returns is, name by name and in
      order, the p_arg_names value of each file header of the form. */
  lemma ReadersAgree(s: Stream, form: Form, headers: seq<FileHeader>, items: Multimap<Bytes>,
                     files: map<nat, Bytes>, maxMemory: int)
    requires HeadersOk(Uploads(s.parts, |s.parts|), headers, files, maxMemory)
    requires form.file == Filed(Uploads(s.parts, |s.parts|), headers)
    requires items == Items(Uploads(s.parts, |s.parts|))
    ensures items.Keys == form.file.Keys
    ensures forall name <- form.file :: items[name] == LastArgsOf(form.file[name])
  {
    forall name
      ensures name in items <==> name in form.file
      ensures name in form.file ==> items[name] == LastArgsOf(form.file[name])
    {
      ItemsAgree(Uploads(s.parts, |s.parts|), headers, name);
    }
  }
}
