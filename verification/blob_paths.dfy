/** Path resolver: `compute_hash`, `split_hash` and `get_blob_path`. A blob
    for hash `h` lives in `archive_dir + "blobs/" + h[:5] + "/" + h[5:] + "/"`. */
module BlobPaths {
  import opened Results
  import opened Json
  import opened Files

  predicate IsHexDigit(c: char) {
    '0' <= c <= '9' || 'a' <= c <= 'f'
  }

  /** `hashlib.sha1(...).hexdigest()`: 40 lower-case hex digits. */
  type Digest = s: string | |s| == 40 && forall i :: 0 <= i < |s| ==> IsHexDigit(s[i])
    witness "0000000000000000000000000000000000000000"

  /** `compute_hash`: SHA-1 (FIPS 180-4) of the sorted-keys JSON encoding of
      a document. SHA-1 itself is not modelled; callers pass it in. */
  type Hasher = Json -> Digest

  /** Length of the fan-out directory name. */
  const PrefixLength: nat := 5

  /** `split_hash(h) == (h[:5], h[5:])`, with Python's clamping of slices on
      short strings. */
  function SplitHash(h: string): (r: (string, string))
    ensures r.0 + r.1 == h
    ensures |r.0| == if |h| < PrefixLength then |h| else PrefixLength
  {
    var n := if |h| < PrefixLength then |h| else PrefixLength;
    (h[..n], h[n..])
  }

  /** The fan-out directory `archive_dir + "blobs/" + h[:5] + "/"`. */
  function BlobParent(archiveDir: string, h: string): string {
    archiveDir + "blobs/" + SplitHash(h).0 + "/"
  }

  /** The blob directory of hash `h`. */
  function Layout(archiveDir: string, h: string): string {
    BlobParent(archiveDir, h) + SplitHash(h).1 + "/"
  }

  /** The first argument of `get_blob_path`: a Storable (its `hash()`), a
      hash string, or anything else. */
  datatype PathArg = StorableArg(hash: Digest) | StrArg(s: string) | OtherArg

  /** A call `get_blob_path(*positional, **keywords)`. */
  datatype BlobQuery = BlobQuery(
    positional: seq<PathArg>,
    archiveDir: Option<string>,
    jsonStr: Option<Json>,
    hashcode: Option<string>)

  /** The hash a first argument stands for. */
  function ArgKey(a: PathArg): string {
    match a
    case StorableArg(h) => h
    case StrArg(s) => s
    case OtherArg => ""
  }

  /** `_helper` */
  function KeyOf(a: PathArg): Result<string> {
    if a.OtherArg? then Err(ValueError("Unknown datatype at 1st argument")) else Ok(ArgKey(a))
  }

  /** The call shapes `get_blob_path` accepts. */
  ghost predicate Accepted(q: BlobQuery) {
    || (|q.positional| == 2 && !q.positional[0].OtherArg? && q.positional[1].StrArg?)
    || (|q.positional| == 1 && q.archiveDir.Some? && !q.positional[0].OtherArg?)
    || (|q.positional| == 0 && q.archiveDir.Some? && (q.jsonStr.Some? || q.hashcode.Some?))
  }

  /** `get_blob_path(*args, **kwargs)` */
  function GetBlobPath(q: BlobQuery, sha: Hasher): (r: Result<string>)
    ensures r.Ok? <==> Accepted(q)
    ensures |q.positional| > 2 ==> r == Err(ValueError("Too Many arguments"))
    ensures r.Err? && !(|q.positional| == 2 && !q.positional[0].OtherArg?) ==> r.error.ValueError?
    ensures r.Ok? && |q.positional| == 2 ==>
              r.value == Layout(q.positional[1].s, ArgKey(q.positional[0]))
    ensures r.Ok? && |q.positional| == 1 ==>
              r.value == Layout(q.archiveDir.value, ArgKey(q.positional[0]))
    ensures r.Ok? && |q.positional| == 0 && q.jsonStr.Some? ==>
              r.value == Layout(q.archiveDir.value, sha(q.jsonStr.value))
    ensures r.Ok? && |q.positional| == 0 && q.jsonStr.None? ==>
              r.value == Layout(q.archiveDir.value, q.hashcode.value)
  {
    if |q.positional| == 2 then
      match KeyOf(q.positional[0])
      case Err(e) => Err(e)
      case Ok(h) =>
        if q.positional[1].StrArg? then Ok(Layout(q.positional[1].s, h))
        else Err(TypeError("cannot concatenate 'str' and non-str objects"))
    else if |q.positional| <= 1 then
      if q.archiveDir.None? then Err(ValueError("Trial Directory was not specified"))
      else if |q.positional| == 1 then
        match KeyOf(q.positional[0])
        case Err(e) => Err(e)
        case Ok(h) => Ok(Layout(q.archiveDir.value, h))
      else if q.jsonStr.Some? then Ok(Layout(q.archiveDir.value, sha(q.jsonStr.value)))
      else if q.hashcode.Some? then Ok(Layout(q.archiveDir.value, q.hashcode.value))
      else Err(ValueError("No hashcode or trial specified"))
    else Err(ValueError("Too Many arguments"))
  }

  /** The blob path of a full-length hash is the directory named by its first
      five characters, then one named by the remaining ones. */
  lemma LayoutShape(archiveDir: string, h: string)
    requires |h| >= PrefixLength
    ensures Layout(archiveDir, h) == archiveDir + "blobs/" + h[..5] + "/" + h[5..] + "/"
    ensures |Layout(archiveDir, h)| == |archiveDir| + |h| + 8
    ensures Below(BlobParent(archiveDir, h), Layout(archiveDir, h))
  {
  }

  /** Different digests never share a blob directory, nor does one lie
      inside the other's. */
  lemma BlobDirsDisjoint(archiveDir: string, h1: Digest, h2: Digest)
    requires Below(Layout(archiveDir, h1), Layout(archiveDir, h2))
    ensures h1 == h2
  {
    var p1, p2 := Layout(archiveDir, h1), Layout(archiveDir, h2);
    LayoutShape(archiveDir, h1);
    LayoutShape(archiveDir, h2);
    assert p1 == p2;
    var n := |archiveDir| + 6;
    assert p1[n..n + 5] == h1[..5];
    assert p2[n..n + 5] == h2[..5];
    assert p1[n + 6..n + 41] == h1[5..];
    assert p2[n + 6..n + 41] == h2[5..];
    assert h1 == h1[..5] + h1[5..];
    assert h2 == h2[..5] + h2[5..];
  }

  /** A file whose name does not start with 'b', placed directly in the
      archive directory (the two record ledgers), is not inside any blob or
      fan-out directory. */
  lemma RecordOutsideBlobs(archiveDir: string, h: string, name: string)
    requires |name| > 0 && name[0] != 'b'
    ensures !Below(BlobParent(archiveDir, h), archiveDir + name)
    ensures !Below(Layout(archiveDir, h), archiveDir + name)
  {
    var parent := BlobParent(archiveDir, h);
    assert parent[|archiveDir|] == 'b';
    assert (archiveDir + name)[|archiveDir|] == name[0];
    var blob := Layout(archiveDir, h);
    assert blob[|archiveDir|] == 'b';
  }

  /** Two different file names placed in the same directory are different
      paths. */
  lemma DistinctNamesDistinctPaths(d: string, n1: string, n2: string)
    requires n1 != n2
    ensures d + n1 != d + n2
  {
    assert (d + n1)[|d|..] == n1;
    assert (d + n2)[|d|..] == n2;
  }
}
