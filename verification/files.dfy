/** The archive's filesystem as a value: a set of directory paths (each with
    a trailing '/') and a map from file path to contents. Models the os,
    shutil, open/json.load/json.dump and h5py calls the archive makes. */
module Files {
  import opened Results
  import opened Json

  /** The contents of one numpy array, flattened. */
  type Array = seq<int>

  /** What a file holds. */
  datatype Content =
    | Doc(json: Json)                                      // a JSON text file
    | Container(groups: map<string, map<string, Array>>)   // an h5 file
    | Damaged                                              // bytes no parser accepts

  datatype FileSystem = FileSystem(dirs: set<string>, files: map<string, Content>)

  /** What an operation that writes as it goes leaves behind: the
      filesystem afterwards, and its value or the exception that stopped
      it. Files written before the exception stay written. */
  datatype Outcome<+T> = Outcome(fs: FileSystem, result: Result<T>)

  /** `p` is `d` itself or lies inside directory `d` (string prefix). */
  predicate Below(d: string, p: string) {
    |d| <= |p| && p[..|d|] == d
  }

  /** The directories that must exist for `p` to exist: every proper prefix
      of `p` that ends in '/'. */
  function Ancestors(p: string): set<string> {
    set i | 0 < i < |p| && p[i - 1] == '/' :: p[..i]
  }

  /** `os.path.exists(p)` */
  predicate Exists(fs: FileSystem, p: string) {
    p in fs.dirs || p in fs.files
  }

  /** Every file and directory sits in existing directories. */
  ghost predicate WellFormed(fs: FileSystem) {
    && (forall p :: p in fs.files ==> Ancestors(p) <= fs.dirs)
    && (forall d :: d in fs.dirs ==> Ancestors(d) <= fs.dirs)
  }

  /** `os.listdir(d) == []` */
  predicate IsEmptyDir(fs: FileSystem, d: string) {
    && (forall p :: p in fs.files ==> !Below(d, p))
    && (forall p :: p in fs.dirs && p != d ==> !Below(d, p))
  }

  /** `os.makedirs(d)`: `d` and all its ancestors become directories. */
  function MakeDirs(fs: FileSystem, d: string): (r: FileSystem)
    ensures d in r.dirs && Ancestors(d) <= r.dirs
    ensures r.files == fs.files && fs.dirs <= r.dirs
  {
    fs.(dirs := fs.dirs + Ancestors(d) + {d})
  }

  /** Writing a file; its directories are created along the way. */
  function WriteFile(fs: FileSystem, path: string, c: Content): (r: FileSystem)
    ensures path in r.files && r.files[path] == c
    ensures forall p :: p != path ==> (p in r.files <==> p in fs.files)
    ensures forall p :: p != path && p in fs.files ==> r.files[p] == fs.files[p]
    ensures fs.dirs <= r.dirs
  {
    FileSystem(fs.dirs + Ancestors(path), fs.files[path := c])
  }

  /** `shutil.rmtree(d)`: `d` and everything below it disappear. */
  function RemoveTree(fs: FileSystem, d: string): (r: FileSystem)
    ensures forall p :: Below(d, p) ==> !Exists(r, p)
    ensures forall p :: !Below(d, p) ==> (p in r.dirs <==> p in fs.dirs)
    ensures forall p :: !Below(d, p) ==> (p in r.files <==> p in fs.files)
    ensures forall p :: p in r.files ==> p in fs.files && r.files[p] == fs.files[p]
  {
    FileSystem(
      set p | p in fs.dirs && !Below(d, p),
      map p | p in fs.files && !Below(d, p) :: fs.files[p])
  }

  /** `write_object(directory, filename, data)`: create the directory when it
      is missing, then write the file. */
  function WriteObject(fs: FileSystem, directory: string, filename: string, c: Content): (r: FileSystem)
    ensures directory in r.dirs || directory in r.files
    ensures directory + filename in r.files && r.files[directory + filename] == c
    ensures forall p :: p != directory + filename ==> (p in r.files <==> p in fs.files)
    ensures forall p :: p != directory + filename && p in fs.files ==> r.files[p] == fs.files[p]
  {
    var fs1 := if Exists(fs, directory) then fs else MakeDirs(fs, directory);
    WriteFile(fs1, directory + filename, c)
  }

  /** `read_json_obj(directory, filename)`: an IOError (no such file, or a
      directory in its place) reads as `{}`; text that does not parse raises
      ValueError, which the function does not catch. */
  function ReadJsonObj(fs: FileSystem, directory: string, filename: string): (r: Result<Json>)
    ensures directory + filename !in fs.files ==> r == Ok(JObj(map[]))
    ensures directory + filename in fs.files && fs.files[directory + filename].Doc? ==>
              r == Ok(fs.files[directory + filename].json)
    ensures r.Err? <==> directory + filename in fs.files && !fs.files[directory + filename].Doc?
  {
    var path := directory + filename;
    if path !in fs.files then Ok(JObj(map[]))
    else match fs.files[path]
      case Doc(j) => Ok(j)
      case _ => Err(ValueError("No JSON object could be decoded"))
  }

  /** `write_json_obj(obj, directory, filename)`: what `json.dump` writes,
      `json.load` reads back, and no other file changes. */
  function WriteJsonObj(fs: FileSystem, obj: Json, directory: string, filename: string): (r: FileSystem)
    ensures ReadJsonObj(r, directory, filename) == Ok(obj)
    ensures forall p :: p != directory + filename ==> (p in r.files <==> p in fs.files)
    ensures forall p :: p != directory + filename && p in fs.files ==> r.files[p] == fs.files[p]
  {
    WriteFile(fs, directory + filename, Doc(obj))
  }

  /** A directory ending in '/' is an ancestor of everything strictly inside it. */
  lemma AncestorOfInside(d: string, p: string)
    requires |d| > 0 && d[|d| - 1] == '/'
    requires Below(d, p) && p != d
    ensures d in Ancestors(p)
  {
    assert p[..|d|] == d;
  }

  lemma WriteFilePreservesWellFormed(fs: FileSystem, path: string, c: Content)
    requires WellFormed(fs)
    ensures WellFormed(WriteFile(fs, path, c))
  {
    var r := WriteFile(fs, path, c);
    forall d | d in Ancestors(path)
      ensures Ancestors(d) <= r.dirs
    {
      var i :| 0 < i < |path| && path[i - 1] == '/' && d == path[..i];
      forall a | a in Ancestors(d)
        ensures a in r.dirs
      {
        var j :| 0 < j < |d| && d[j - 1] == '/' && a == d[..j];
        assert a == path[..j];
      }
    }
  }
}
