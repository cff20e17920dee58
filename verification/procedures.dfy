/** `DataProcedure`: a call of a data-producing function, identified by the
    hash of its sorted-keys JSON description, whose `(X, Y)` output is cached
    in the blob directory of that hash (`procedure.json` and `archive.h5`)
    and listed in the `data_record.json` ledger. */
module Procedures {
  import opened Results
  import opened Json
  import opened Files
  import opened BlobPaths
  import Storable
  import opened Ledger
  import opened Payload

  const DescriptorFile: string := "procedure.json"

  /** Keyword arguments that do not take part in the hash. */
  const UnhashedKargs: set<string> := {"verbose", "verbosity"}

  /** A function named by its `__name__` and `__module__`. */
  datatype FuncRef = FuncRef(name: string, moduleName: string)

  /** The arguments `getData` passes: `func(*args, **kargs)`. */
  datatype Call = Call(args: seq<Json>, kargs: map<string, Json>)

  /** One element of a returned tuple: a list or ndarray of data, or anything
      else. */
  datatype Item = Arrays(batch: Batch) | NotArrays(value: Json)

  /** What calling the function produced. */
  datatype Returned =
    | Tuple(items: seq<Item>)
    | Generator(id: nat)
    | Plain(value: Json)
    | Raises(error: Error)

  /** The functions `get_func` can import, by module and name. A function
      missing here is an ImportError there. */
  type Registry = map<FuncRef, Call -> Returned>

  /** What `getData` returns: the pair `(X, Y)` or a generator. */
  datatype Output = Pair(first: Item, second: Item) | Stream(id: nat)

  datatype Procedure = Procedure(
    archiveDir: string,
    archiveGetData: bool,
    func: string,
    funcModule: string,
    args: seq<Json>,
    kargs: map<string, Json>,
    hashcode: Option<Digest>,
    x: Option<Batch>,
    y: Option<Batch>)

  /** `DataProcedure(archive_dir, archive_getData, func, *args, **kargs)`:
      the function is kept by name and module; nothing is hashed or loaded
      yet. */
  function NewProcedure(archiveDir: string, archiveGetData: bool, f: FuncRef,
                        args: seq<Json>, kargs: map<string, Json>): (r: Procedure)
    ensures r.hashcode.None? && r.x.None? && r.y.None?
    ensures FuncRef(r.func, r.funcModule) == f
    ensures r.archiveDir == archiveDir && r.archiveGetData == archiveGetData
    ensures r.args == args && r.kargs == kargs
  {
    Procedure(archiveDir, archiveGetData, f.name, f.moduleName, args, kargs, None, None, None)
  }

  // ---------------------------------------------------------------------
  // Identity
  // ---------------------------------------------------------------------

  /** `to_json()`: the instance dictionary without `archive_dir`, the encoder,
      `hashcode`, `X` and `Y`, with `class_name` added and the verbosity
      keyword arguments dropped. */
  function ToJson(p: Procedure): (j: Json)
    ensures j.JObj?
    ensures j.fields.Keys == {"archive_getData", "args", "class_name", "func", "func_module", "kargs"}
    ensures j.fields["class_name"] == JStr("DataProcedure")
  {
    JObj(map[
      "archive_getData" := JBool(p.archiveGetData),
      "args" := JList(p.args),
      "class_name" := JStr("DataProcedure"),
      "func" := JStr(p.func),
      "func_module" := JStr(p.funcModule),
      "kargs" := JObj(p.kargs - UnhashedKargs)])
  }

  /** The fields a procedure's identity consists of. */
  predicate SameIdentity(p: Procedure, q: Procedure) {
    && p.archiveGetData == q.archiveGetData
    && p.func == q.func
    && p.funcModule == q.funcModule
    && p.args == q.args
    && p.kargs - UnhashedKargs == q.kargs - UnhashedKargs
  }

  /** Two procedures have the same description exactly when they agree on
      the function, the arguments other than the verbosity ones, and
      `archive_getData`; the archive directory, the cache and the data play
      no part. */
  lemma ToJsonIdentity(p: Procedure, q: Procedure)
    ensures ToJson(p) == ToJson(q) <==> SameIdentity(p, q)
  {
    if ToJson(p) == ToJson(q) {
      var a, b := ToJson(p).fields, ToJson(q).fields;
      assert a["archive_getData"] == b["archive_getData"];
      assert a["args"] == b["args"];
      assert a["func"] == b["func"];
      assert a["func_module"] == b["func_module"];
      assert a["kargs"] == b["kargs"];
    }
  }

  /** Two procedures built for the same function and positional arguments
      share their description, hence their hash and blob, exactly when they
      agree on `archive_getData` and on the keyword arguments other than
      `verbose` and `verbosity`; the archive directory plays no part. */
  lemma NewProcedureIdentity(d1: string, d2: string, a1: bool, a2: bool, f: FuncRef,
                             args: seq<Json>, k1: map<string, Json>, k2: map<string, Json>)
    ensures ToJson(NewProcedure(d1, a1, f, args, k1)) == ToJson(NewProcedure(d2, a2, f, args, k2))
            <==> a1 == a2 && k1 - UnhashedKargs == k2 - UnhashedKargs
  {
    ToJsonIdentity(NewProcedure(d1, a1, f, args, k1), NewProcedure(d2, a2, f, args, k2));
  }

  /** `hash()`: cached after the first call. */
  function Hash(p: Procedure, sha: Hasher): (r: (Digest, Procedure))
    ensures r.1 == p.(hashcode := Some(r.0))
    ensures p.hashcode.Some? ==> r.0 == p.hashcode.value
    ensures p.hashcode.None? ==> r.0 == sha(ToJson(p))
  {
    var (h, cache) := Storable.Hash(p.hashcode, ToJson(p), sha);
    (h, p.(hashcode := cache))
  }

  /** `get_path()`: the blob directory of a fresh hash. */
  function Path(p: Procedure, sha: Hasher): string {
    Storable.GetPath(p.archiveDir, ToJson(p), sha)
  }

  /** The cache agrees with the current description. */
  predicate HashConsistent(p: Procedure, sha: Hasher) {
    p.hashcode.None? || p.hashcode.value == sha(ToJson(p))
  }

  /** With a consistent cache, the blob `get_path()` names is the one of the
      cached hash; with a stale cache (arguments changed after hashing) they
      are different directories. */
  lemma PathAgreesWithHash(p: Procedure, sha: Hasher)
    ensures Path(p, sha) == Layout(p.archiveDir, Hash(p, sha).0) <==> HashConsistent(p, sha)
  {
    Storable.GetPathMatchesCache(p.archiveDir, p.hashcode, ToJson(p), sha);
  }

  /** Hashing does not change the description, so it keeps the cache
      consistent and the path where it was. */
  lemma HashKeepsPath(p: Procedure, sha: Hasher)
    requires HashConsistent(p, sha)
    ensures HashConsistent(Hash(p, sha).1, sha)
    ensures Path(Hash(p, sha).1, sha) == Path(p, sha) == Layout(p.archiveDir, Hash(p, sha).0)
  {
    ToJsonIdentity(p, Hash(p, sha).1);
  }

  // ---------------------------------------------------------------------
  // Archive
  // ---------------------------------------------------------------------

  /** `is_archived()`: whether `archive.h5` exists in the blob of the cached
      hash (`get_blob_path(self, self.archive_dir)`), which it computes and
      caches if needed. */
  function IsArchived(fs: FileSystem, p: Procedure, sha: Hasher): (r: (bool, Procedure))
    ensures r.1 == Hash(p, sha).1
    ensures r.0 <==> Exists(fs, Layout(p.archiveDir, Hash(p, sha).0) + PayloadFile)
  {
    var (h, p1) := Hash(p, sha);
    var blob := GetBlobPath(BlobQuery([StorableArg(h), StrArg(p.archiveDir)], None, None, None), sha);
    (Exists(fs, blob.value + PayloadFile), p1)
  }

  /** `write()`: the description, as `procedure.json` in the blob directory. */
  function Write(fs: FileSystem, p: Procedure, sha: Hasher): (r: FileSystem)
    ensures Path(p, sha) + DescriptorFile in r.files
    ensures r.files[Path(p, sha) + DescriptorFile] == Doc(ToJson(p))
    ensures forall q :: q != Path(p, sha) + DescriptorFile ==> (q in r.files <==> q in fs.files)
    ensures forall q :: q != Path(p, sha) + DescriptorFile && q in fs.files ==> r.files[q] == fs.files[q]
  {
    WriteObject(fs, Path(p, sha), DescriptorFile, Doc(ToJson(p)))
  }

  /** The ledger entry `archive()` writes. The function's module is stored
      under "module", not under the "func_module" of the description. */
  function LedgerEntry(p: Procedure): (e: Entry)
    ensures e.Keys == {"func", "module", "args", "kargs"}
    ensures "func_module" !in e
    ensures e["module"] == ToJson(p).fields["func_module"]
    ensures forall k :: k in e && k != "module" ==> e[k] == ToJson(p).fields[k]
  {
    map["func" := JStr(p.func),
        "module" := JStr(p.funcModule),
        "args" := JList(p.args),
        "kargs" := JObj(p.kargs - UnhashedKargs)]
  }

  /** The files `archive()` writes into the blob directory: the payload
      always, the descriptor only if missing. The ledger lies outside the
      blob and stays as it was. */
  function StoreBlob(fs: FileSystem, p: Procedure, x: Batch, y: Batch, sha: Hasher): (r: FileSystem)
    ensures Path(p, sha) + PayloadFile in r.files
    ensures r.files[Path(p, sha) + PayloadFile] == WriteContainer(x, y)
    ensures Exists(r, Path(p, sha) + DescriptorFile)
    ensures Path(p, sha) + DescriptorFile in fs.files ==>
              && Path(p, sha) + DescriptorFile in r.files
              && r.files[Path(p, sha) + DescriptorFile] == fs.files[Path(p, sha) + DescriptorFile]
    ensures ReadRecord(r, p.archiveDir, DataRecordFile) == ReadRecord(fs, p.archiveDir, DataRecordFile)
  {
    var blob := Path(p, sha);
    DistinctNamesDistinctPaths(blob, PayloadFile, DescriptorFile);
    LedgerOutsideBlob(p.archiveDir, sha(ToJson(p)), DescriptorFile);
    LedgerOutsideBlob(p.archiveDir, sha(ToJson(p)), PayloadFile);
    var fs1 := if !Exists(fs, blob) then MakeDirs(fs, blob) else fs;
    var fs2 := if !Exists(fs1, blob + DescriptorFile) then Write(fs1, p, sha) else fs1;
    var r := WriteFile(fs2, blob + PayloadFile, WriteContainer(x, y));
    SameLedgerFile(fs, r, p.archiveDir, DataRecordFile);
    r
  }

  /** `archive()`: the blob directory (descriptor only if missing, payload
      always), then the ledger entry under the cached hash. The blob is
      written before the ledger is read, so a ledger that cannot be read
      leaves the blob behind. */
  function Archive(fs: FileSystem, p: Procedure, sha: Hasher): (r: Outcome<Procedure>)
    ensures p.x.None? || p.y.None? ==>
              r == Outcome(fs, Err(ValueError("Cannot archive DataProcedure with NoneType X or Y")))
    ensures r.result.Ok? ==> r.result.value == Hash(p, sha).1
  {
    if p.x.None? || p.y.None? then
      Outcome(fs, Err(ValueError("Cannot archive DataProcedure with NoneType X or Y")))
    else
      var fs3 := StoreBlob(fs, p, p.x.value, p.y.value, sha);
      match ReadRecord(fs3, p.archiveDir, DataRecordFile)
      case Err(e) => Outcome(fs3, Err(e))
      case Ok(record) =>
        var (h, p1) := Hash(p, sha);
        Outcome(WriteRecord(fs3, record[h := LedgerEntry(p)], p.archiveDir, DataRecordFile), Ok(p1))
  }

  /** A file directly in the archive directory whose name does not start
      with 'b' lies outside every blob: writing blob files leaves it alone. */
  lemma LedgerOutsideBlob(archiveDir: string, h: string, file: string)
    ensures archiveDir + DataRecordFile != Layout(archiveDir, h) + file
  {
    RecordOutsideBlobs(archiveDir, h, DataRecordFile);
    var blob := Layout(archiveDir, h);
    assert Below(BlobParent(archiveDir, h), blob + file) by {
      assert (blob + file)[..|BlobParent(archiveDir, h)|] == blob[..|BlobParent(archiveDir, h)|];
    }
  }

  /** What `archive()` leaves behind: the payload and a descriptor in the
      blob of the current description, whether or not it then fails, and
      the ledger with the entry for the cached hash added or replaced when
      it succeeds, untouched when it fails. It fails only for missing data
      or a ledger that cannot be read. */
  lemma ArchiveStores(fs: FileSystem, p: Procedure, sha: Hasher)
    requires p.x.Some? && p.y.Some?
    ensures Archive(fs, p, sha).result.Ok? <==> ReadRecord(fs, p.archiveDir, DataRecordFile).Ok?
    ensures var fs' := Archive(fs, p, sha).fs;
            var blob := Path(p, sha);
            && blob + PayloadFile in fs'.files
            && fs'.files[blob + PayloadFile] == WriteContainer(p.x.value, p.y.value)
            && Exists(fs', blob + DescriptorFile)
    ensures Archive(fs, p, sha).result.Ok? ==>
              ReadRecord(Archive(fs, p, sha).fs, p.archiveDir, DataRecordFile)
              == Ok(ReadRecord(fs, p.archiveDir, DataRecordFile).value[Hash(p, sha).0 := LedgerEntry(p)])
    ensures Archive(fs, p, sha).result.Err? ==>
              ReadRecord(Archive(fs, p, sha).fs, p.archiveDir, DataRecordFile)
              == ReadRecord(fs, p.archiveDir, DataRecordFile)
  {
    var fs3 := StoreBlob(fs, p, p.x.value, p.y.value, sha);
    if ReadRecord(fs, p.archiveDir, DataRecordFile).Ok? {
      var record := ReadRecord(fs, p.archiveDir, DataRecordFile).value;
      var record' := record[Hash(p, sha).0 := LedgerEntry(p)];
      RecordRoundTrip(fs3, record', p.archiveDir, DataRecordFile);
      LedgerOutsideBlob(p.archiveDir, sha(ToJson(p)), DescriptorFile);
      LedgerOutsideBlob(p.archiveDir, sha(ToJson(p)), PayloadFile);
    }
  }

  /** So a procedure whose `archive()` failed on the ledger counts as
      archived all the same: `is_archived()` finds its payload. */
  lemma FailedArchiveIsArchived(fs: FileSystem, p: Procedure, sha: Hasher)
    requires HashConsistent(p, sha)
    requires p.x.Some? && p.y.Some?
    requires ReadRecord(fs, p.archiveDir, DataRecordFile).Err?
    ensures Archive(fs, p, sha).result.Err?
    ensures IsArchived(Archive(fs, p, sha).fs, p, sha).0
  {
    ArchiveStores(fs, p, sha);
    PathAgreesWithHash(p, sha);
  }

  // ---------------------------------------------------------------------
  // getData
  // ---------------------------------------------------------------------

  const NotPairMessage: string := "getData did not return (X,Y) or Generator"

  /** The exception for a return value that is neither a tuple nor a
      generator. Building the ValueError's message evaluates
      `type(out[0])` and `type(out[1])` first, so a value that cannot be
      indexed twice raises while the message is built: a TypeError for a
      number, a boolean or None, a KeyError for a dictionary, an IndexError
      for a list or string shorter than two. A JSON text is at least two
      characters long unless it encodes a one-digit integer. */
  function PlainError(v: Json): (e: Error)
    ensures e.ValueError? <==>
              || (v.JList? && |v.items| >= 2)
              || (v.JStr? && |v.s| >= 2)
              || (v.JDoc? && !(v.doc.JInt? && 0 <= v.doc.i <= 9))
    ensures e.ValueError? ==> e.message == NotPairMessage
  {
    match v
    case JList(items) => if |items| >= 2 then ValueError(NotPairMessage) else IndexError("list index out of range")
    case JStr(s) => if |s| >= 2 then ValueError(NotPairMessage) else IndexError("string index out of range")
    case JDoc(d) =>
      if d.JInt? && 0 <= d.i <= 9 then IndexError("string index out of range") else ValueError(NotPairMessage)
    case JObj(_) => KeyError("0")
    case _ => TypeError("object has no attribute '__getitem__'")
  }

  /** The `else` branch of `getData`: import and call the function, keep
      `(X, Y)` if it returned a pair of data, and archive when asked to.
      Only archiving writes. */
  function Compute(fs: FileSystem, p: Procedure, reg: Registry, sha: Hasher, archive: bool)
    : (r: Outcome<(Output, Procedure)>)
    ensures FuncRef(p.func, p.funcModule) !in reg ==>
              r == Outcome(fs, Err(ValueError("DataProcedure function does not exist")))
    ensures !p.archiveGetData && !archive ==> r.fs == fs
  {
    var f := FuncRef(p.func, p.funcModule);
    if f !in reg then Outcome(fs, Err(ValueError("DataProcedure function does not exist")))
    else
      match reg[f](Call(p.args, p.kargs))
      case Raises(e) => Outcome(fs, Err(e))
      case Plain(v) => Outcome(fs, Err(PlainError(v)))
      case Generator(id) => Outcome(fs, Ok((Stream(id), p.(archiveGetData := false))))
      case Tuple(items) =>
        if |items| != 2 then Outcome(fs, Err(ValueError("getData returned too many arguments expected 2")))
        else
          var p1 := if items[0].Arrays? && items[1].Arrays?
                    then p.(x := Some(items[0].batch), y := Some(items[1].batch))
                    else p;
          var out := Pair(items[0], items[1]);
          if p1.archiveGetData || archive then
            var stored := Archive(fs, p1, sha);
            match stored.result
            case Ok(p2) => Outcome(stored.fs, Ok((out, p2)))
            case Err(e) => Outcome(stored.fs, Err(e))
          else Outcome(fs, Ok((out, p1)))
  }

  /** `(X, Y)` as far as a read of the payload got. */
  function ReadInto(p: Procedure, read: ReadOutcome): Procedure {
    p.(x := if read.x.Some? then Some(ListOf(read.x.value)) else p.x,
       y := if read.y.Some? then Some(ListOf(read.y.value)) else p.y)
  }

  /** `getData(archive, redo)`: read `(X, Y)` back from the archive when it is
      there and `redo` is off, falling back to computing them when the read
      fails part-way (what it did read stays in `X`/`Y`). Only archiving
      writes, and a read never calls the function when it succeeds. */
  function GetData(fs: FileSystem, p: Procedure, reg: Registry, sha: Hasher, archive: bool, redo: bool)
    : (r: Outcome<(Output, Procedure)>)
    ensures !p.archiveGetData && !archive ==> r.fs == fs
    ensures r.result.Ok? && r.result.value.0.Stream? ==> !r.result.value.1.archiveGetData
    decreases if redo then 0 else 1
  {
    var (archived, p1) := IsArchived(fs, p, sha);
    if archived && !redo then
      var read := ReadContainer(fs, Path(p1, sha) + PayloadFile);
      var p2 := ReadInto(p1, read);
      if read.ok then Outcome(fs, Ok((Pair(Arrays(ListOf(read.x.value)), Arrays(ListOf(read.y.value))), p2)))
      else GetData(fs, p2, reg, sha, archive, true)
    else Compute(fs, p1, reg, sha, archive)
  }

  /** A hit is served from the archive: the function is not called (any
      registry gives the same result) and nothing is written. */
  lemma HitDoesNotCall(fs: FileSystem, p: Procedure, reg1: Registry, reg2: Registry, sha: Hasher, archive: bool)
    requires IsArchived(fs, p, sha).0
    requires ReadContainer(fs, Path(p, sha) + PayloadFile).ok
    ensures GetData(fs, p, reg1, sha, archive, false) == GetData(fs, p, reg2, sha, archive, false)
    ensures GetData(fs, p, reg1, sha, archive, false).result.Ok?
    ensures GetData(fs, p, reg1, sha, archive, false).fs == fs
  {
    ToJsonIdentity(p, Hash(p, sha).1);
  }

  /** A read that fails part-way (the bare `except:` of `getData`) falls
      back to computing from scratch, once, with what was read kept in
      `X`/`Y`: the archived payload is not read a second time. */
  lemma ReadFailureRecomputes(fs: FileSystem, p: Procedure, reg: Registry, sha: Hasher, archive: bool)
    requires IsArchived(fs, p, sha).0
    requires !ReadContainer(fs, Path(p, sha) + PayloadFile).ok
    ensures GetData(fs, p, reg, sha, archive, false)
            == Compute(fs, ReadInto(Hash(p, sha).1, ReadContainer(fs, Path(p, sha) + PayloadFile)),
                       reg, sha, archive)
  {
    ToJsonIdentity(p, Hash(p, sha).1);
  }

  /** A function that returns a generator turns archiving off for good and
      leaves the filesystem alone. */
  lemma GeneratorDisablesArchiving(fs: FileSystem, p: Procedure, reg: Registry, sha: Hasher,
                                   archive: bool, id: nat)
    requires FuncRef(p.func, p.funcModule) in reg
    requires reg[FuncRef(p.func, p.funcModule)](Call(p.args, p.kargs)) == Generator(id)
    ensures GetData(fs, p, reg, sha, archive, true)
            == Outcome(fs, Ok((Stream(id), Hash(p, sha).1.(archiveGetData := false))))
  {
  }

  /** A tuple of any length other than two is a ValueError, and nothing is
      written. */
  lemma WrongArityFails(fs: FileSystem, p: Procedure, reg: Registry, sha: Hasher,
                        archive: bool, items: seq<Item>)
    requires FuncRef(p.func, p.funcModule) in reg
    requires reg[FuncRef(p.func, p.funcModule)](Call(p.args, p.kargs)) == Tuple(items)
    requires |items| != 2
    ensures GetData(fs, p, reg, sha, archive, true).fs == fs
    ensures GetData(fs, p, reg, sha, archive, true).result.Err?
    ensures GetData(fs, p, reg, sha, archive, true).result.error.ValueError?
  {
  }

  /** Any other return value is an exception, a ValueError for a list or
      string of at least two elements, and nothing is written. */
  lemma PlainIsError(fs: FileSystem, p: Procedure, reg: Registry, sha: Hasher, archive: bool, v: Json)
    requires FuncRef(p.func, p.funcModule) in reg
    requires reg[FuncRef(p.func, p.funcModule)](Call(p.args, p.kargs)) == Plain(v)
    ensures GetData(fs, p, reg, sha, archive, true) == Outcome(fs, Err(PlainError(v)))
    ensures (v.JList? && |v.items| >= 2) || (v.JStr? && |v.s| >= 2) ==>
              GetData(fs, p, reg, sha, archive, true).result.error == ValueError(NotPairMessage)
  {
  }

  /** The first call computes, keeps `(X, Y)` and archives them. */
  lemma FirstCallArchives(fs: FileSystem, p: Procedure, reg: Registry, sha: Hasher,
                          archive: bool, xb: Batch, yb: Batch)
    requires p.archiveGetData || archive
    requires FuncRef(p.func, p.funcModule) in reg
    requires reg[FuncRef(p.func, p.funcModule)](Call(p.args, p.kargs)) == Tuple([Arrays(xb), Arrays(yb)])
    requires ReadRecord(fs, p.archiveDir, DataRecordFile).Ok?
    ensures var q := Hash(p, sha).1.(x := Some(xb), y := Some(yb));
            && Archive(fs, q, sha).result.Ok?
            && GetData(fs, p, reg, sha, archive, true)
               == Outcome(Archive(fs, q, sha).fs, Ok((Pair(Arrays(xb), Arrays(yb)), q)))
  {
    var q := Hash(p, sha).1.(x := Some(xb), y := Some(yb));
    ArchiveStores(fs, q, sha);
  }

  /** A second call on a blob that holds at most ten arrays per group reads
      them back as lists and changes nothing else. */
  lemma HitReadsPayload(fs: FileSystem, q: Procedure, reg: Registry, sha: Hasher,
                        archive: bool, xb: Batch, yb: Batch)
    requires q.hashcode == Some(sha(ToJson(q)))
    requires Path(q, sha) + PayloadFile in fs.files
    requires fs.files[Path(q, sha) + PayloadFile] == WriteContainer(xb, yb)
    requires |Wrap(xb)| <= 10 && |Wrap(yb)| <= 10
    ensures GetData(fs, q, reg, sha, archive, false)
            == Outcome(fs, Ok((Pair(Arrays(ListOf(Wrap(xb))), Arrays(ListOf(Wrap(yb)))),
                               q.(x := Some(ListOf(Wrap(xb))), y := Some(ListOf(Wrap(yb)))))))
  {
    var path := Path(q, sha) + PayloadFile;
    assert Hash(q, sha).1 == q;
    assert IsArchived(fs, q, sha) == (true, q);
    ReadStoredContainer(fs, path, xb, yb);
    assert ReadContainer(fs, path) == ReadOutcome(Some(Wrap(xb)), Some(Wrap(yb)), true);
  }

  /** The cache at work: computing `(X, Y)` of at most ten arrays each with
      archiving on, then asking again without `redo`, reads the same data
      back as lists, calls nothing and writes nothing. */
  lemma SecondCallReadsBack(fs: FileSystem, p: Procedure, reg: Registry, reg2: Registry, sha: Hasher,
                            archive: bool, xb: Batch, yb: Batch)
    requires HashConsistent(p, sha)
    requires p.archiveGetData || archive
    requires FuncRef(p.func, p.funcModule) in reg
    requires reg[FuncRef(p.func, p.funcModule)](Call(p.args, p.kargs)) == Tuple([Arrays(xb), Arrays(yb)])
    requires |Wrap(xb)| <= 10 && |Wrap(yb)| <= 10
    requires ReadRecord(fs, p.archiveDir, DataRecordFile).Ok?
    ensures GetData(fs, p, reg, sha, archive, true).result.Ok?
    ensures var first := GetData(fs, p, reg, sha, archive, true);
            && first.result.value.0 == Pair(Arrays(xb), Arrays(yb))
            && var second := GetData(first.fs, first.result.value.1, reg2, sha, false, false);
            && second.result.Ok?
            && second.result.value.0 == Pair(Arrays(ListOf(Wrap(xb))), Arrays(ListOf(Wrap(yb))))
            && second.fs == first.fs
  {
    var q := Hash(p, sha).1.(x := Some(xb), y := Some(yb));
    HashKeepsPath(p, sha);
    ToJsonIdentity(p, q);
    FirstCallArchives(fs, p, reg, sha, archive, xb, yb);
    ArchiveStores(fs, q, sha);
    HitReadsPayload(Archive(fs, q, sha).fs, q, reg2, sha, false, xb, yb);
  }

  // ---------------------------------------------------------------------
  // Removal
  // ---------------------------------------------------------------------

  /** `DataProcedure.remove_from_archive()`, on `data_record.json`. */
  function RemoveFromArchive(fs: FileSystem, p: Procedure, sha: Hasher): (r: Result<(FileSystem, Procedure)>)
    ensures r.Ok? <==> ReadRecord(fs, p.archiveDir, DataRecordFile).Ok?
    ensures r.Ok? ==> r.value.1 == Hash(p, sha).1
  {
    var removed :- Storable.RemoveFromArchive(fs, p.archiveDir, DataRecordFile, p.hashcode, ToJson(p), sha);
    Ok((removed.0, p.(hashcode := removed.1)))
  }

  /** After removal the procedure is no longer archived, its blob is empty
      of files and directories, the ledger has lost exactly its entry, every
      other file is as it was, and the filesystem is still well-formed. */
  lemma RemoveUnarchives(fs: FileSystem, p: Procedure, sha: Hasher)
    requires WellFormed(fs)
    requires HashConsistent(p, sha)
    requires ReadRecord(fs, p.archiveDir, DataRecordFile).Ok?
    ensures var r := RemoveFromArchive(fs, p, sha);
            var blob := Path(p, sha);
            var ledger := p.archiveDir + DataRecordFile;
            && r.Ok?
            && !IsArchived(r.value.0, r.value.1, sha).0
            && (forall q :: Below(blob, q) && q != blob ==> !Exists(r.value.0, q))
            && ReadRecord(r.value.0, p.archiveDir, DataRecordFile)
               == Ok(ReadRecord(fs, p.archiveDir, DataRecordFile).value - {Hash(p, sha).0})
            && (forall q :: q in fs.files && q != ledger && !Below(blob, q) ==>
                  q in r.value.0.files && r.value.0.files[q] == fs.files[q])
            && WellFormed(r.value.0)
  {
    HashKeepsPath(p, sha);
    Storable.RemoveForgets(fs, p.archiveDir, DataRecordFile, p.hashcode, ToJson(p), sha);
    var blob := Path(p, sha);
    assert Below(blob, blob + PayloadFile);
  }
}
