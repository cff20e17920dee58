/** Reading the archive back: `get_trials_by_name` and
    `get_data_by_function`, which walk a ledger and load the blobs whose
    entries match a regular expression. */
module Queries {
  import opened Results
  import opened Json
  import opened Files
  import opened BlobPaths
  import opened Ledger
  import Procedures
  import Trials

  /** `re.match(pattern, s) != None` for a string value `s` (`IsStr`): a
      plain string, or an encoded document, whose text the matcher reads.
      Regular expressions are not modelled: the caller supplies the matcher. */
  type Matcher = (string, Json) -> bool

  /** `find_by_hashcode(h)`: whether the description file of the blob could
      be opened. A missing file is `None`; a file that is not JSON fails to
      parse. */
  function Find(fs: FileSystem, archiveDir: string, h: string, file: string): (r: Result<bool>)
    ensures r == Ok(true) <==>
              Layout(archiveDir, h) + file in fs.files && fs.files[Layout(archiveDir, h) + file].Doc?
    ensures r.Err? <==>
              Layout(archiveDir, h) + file in fs.files && !fs.files[Layout(archiveDir, h) + file].Doc?
  {
    var path := Layout(archiveDir, h) + file;
    if path !in fs.files then Ok(false)
    else if fs.files[path].Doc? then Ok(true)
    else Err(ValueError("No JSON object could be decoded"))
  }

  // ---------------------------------------------------------------------
  // Trials by name
  // ---------------------------------------------------------------------

  /** The names a trial entry lists: `get("name", 'unknown')`, as a list. */
  function NamesOf(entry: Entry): seq<Json> {
    AsList(Get(entry, "name", JStr("unknown")))
  }

  /** Every name is something `re.match` accepts. */
  predicate AllStrings(js: seq<Json>) {
    forall i :: 0 <= i < |js| ==> IsStr(js[i])
  }

  /** One of the names matches the pattern. */
  predicate AnyMatches(m: Matcher, pattern: string, names: seq<Json>)
    requires AllStrings(names)
  {
    exists i :: 0 <= i < |names| && m(pattern, names[i])
  }

  /** The test of one ledger key: whether it is returned, or the error it
      raises (`re.match` on a non-string, an unreadable `trial.json`). */
  function TrialStep(fs: FileSystem, archiveDir: string, record: Record, k: string,
                     pattern: string, m: Matcher): Result<bool>
    requires k in record
  {
    var names := NamesOf(record[k]);
    if !AllStrings(names) then Err(TypeError("expected string or buffer"))
    else if !AnyMatches(m, pattern, names) then Ok(false)
    else Find(fs, archiveDir, k, Trials.TrialFile)
  }

  /** The hashes `get_trials_by_name` returns trials for. */
  function TrialsSelected(fs: FileSystem, archiveDir: string, record: Record,
                          pattern: string, m: Matcher): set<string> {
    set k | k in record && TrialStep(fs, archiveDir, record, k, pattern, m) == Ok(true)
  }

  /** `get_trials_by_name(name, archive_dir)`: the loop over the ledger. It
      fails when the ledger cannot be read or any key's test fails, and
      otherwise returns exactly the selected hashes. */
  method TrialsByName(fs: FileSystem, archiveDir: string, pattern: string, m: Matcher)
    returns (r: Result<set<string>>)
    ensures var rec := ReadRecord(fs, archiveDir, TrialRecordFile);
            r.Ok? <==> rec.Ok? && forall k :: k in rec.value ==>
                                    TrialStep(fs, archiveDir, rec.value, k, pattern, m).Ok?
    ensures r.Ok? ==> r.value == TrialsSelected(fs, archiveDir, ReadRecord(fs, archiveDir, TrialRecordFile).value, pattern, m)
  {
    var rec := ReadRecord(fs, archiveDir, TrialRecordFile);
    if rec.Err? {
      return Err(rec.error);
    }
    var record := rec.value;
    var out: set<string> := {};
    var todo := record.Keys;
    while todo != {}
      invariant todo <= record.Keys
      invariant forall k :: k in record.Keys - todo ==> TrialStep(fs, archiveDir, record, k, pattern, m).Ok?
      invariant out == set k | k in record.Keys - todo && TrialStep(fs, archiveDir, record, k, pattern, m) == Ok(true)
      decreases todo
    {
      var k :| k in todo;
      var step := TrialStep(fs, archiveDir, record, k, pattern, m);
      if step.Err? {
        return Err(step.error);
      }
      if step.value {
        out := out + {k};
      }
      todo := todo - {k};
    }
    return Ok(out);
  }

  /** A trial written under a name is found by every pattern that matches
      that name, provided the ledger's other names are strings. */
  lemma WrittenTrialIsFound(fs: FileSystem, t: Trials.Trial, sha: Hasher, pattern: string, m: Matcher)
    requires Trials.HashConsistent(t, sha)
    requires Trials.Write(fs, t, sha).result.Ok?
    requires m(pattern, JStr(t.name))
    ensures var w := Trials.Write(fs, t, sha);
            var record := ReadRecord(w.fs, t.archiveDir, TrialRecordFile).value;
            var h := Trials.Hash(t, sha).0;
            AllStrings(NamesOf(record[h])) ==>
              h in TrialsSelected(w.fs, t.archiveDir, record, pattern, m)
  {
    var w := Trials.Write(fs, t, sha);
    var record := ReadRecord(w.fs, t.archiveDir, TrialRecordFile).value;
    var h := Trials.Hash(t, sha).0;
    assert Trials.Path(t, sha) == Layout(t.archiveDir, h);
    NamedEntryIsSelected(w.fs, t.archiveDir, record, h, t.name, pattern, m);
  }

  /** A ledger entry that lists a matching name, for a blob holding
      `trial.json`, is selected when all its names are strings. */
  lemma NamedEntryIsSelected(fs: FileSystem, archiveDir: string, record: Record, h: string,
                             name: string, pattern: string, m: Matcher)
    requires h in record && "name" in record[h] && JStr(name) in AsList(record[h]["name"])
    requires Layout(archiveDir, h) + Trials.TrialFile in fs.files
    requires fs.files[Layout(archiveDir, h) + Trials.TrialFile].Doc?
    requires m(pattern, JStr(name))
    ensures AllStrings(NamesOf(record[h])) ==> h in TrialsSelected(fs, archiveDir, record, pattern, m)
  {
    var names := NamesOf(record[h]);
    if AllStrings(names) {
      var i :| 0 <= i < |names| && names[i] == JStr(name);
      assert m(pattern, names[i]);
    }
  }

  /** A name stored as an encoded document is a string to `re.match`: it
      is matched like any other name, not rejected. */
  lemma EncodedNameIsMatched(fs: FileSystem, archiveDir: string, record: Record, k: string,
                             d: Json, pattern: string, m: Matcher)
    requires k in record && "name" in record[k] && record[k]["name"] == JDoc(d)
    ensures TrialStep(fs, archiveDir, record, k, pattern, m)
            == if m(pattern, JDoc(d)) then Find(fs, archiveDir, k, Trials.TrialFile) else Ok(false)
  {
    var names := NamesOf(record[k]);
    assert names == [JDoc(d)];
    assert AllStrings(names);
    assert AnyMatches(m, pattern, names) <==> m(pattern, names[0]);
  }

  // ---------------------------------------------------------------------
  // Data by function
  // ---------------------------------------------------------------------

  /** The `func` argument: a pattern for the name, or a function, whose
      name and module are both matched. */
  datatype FuncArg = ByName(pattern: string) | ByFunction(f: Procedures.FuncRef)

  const Unknown: Json := JStr("unknown")

  /** The test of one `data_record.json` key. The module is looked up
      under "func_module". */
  function DataStep(fs: FileSystem, archiveDir: string, record: Record, k: string,
                    f: FuncArg, m: Matcher): Result<bool>
    requires k in record
  {
    var name := if f.ByName? then f.pattern else f.f.name;
    var tFunc := Get(record[k], "func", Unknown);
    var tModule := Get(record[k], "func_module", Unknown);
    if !IsStr(tFunc) then Err(TypeError("expected string or buffer"))
    else if !m(name, tFunc) then Ok(false)
    else if f.ByName? then Find(fs, archiveDir, k, Procedures.DescriptorFile)
    else if !IsStr(tModule) then Err(TypeError("expected string or buffer"))
    else if !m(f.f.moduleName, tModule) then Ok(false)
    else Find(fs, archiveDir, k, Procedures.DescriptorFile)
  }

  function DataSelected(fs: FileSystem, archiveDir: string, record: Record,
                        f: FuncArg, m: Matcher): set<string> {
    set k | k in record && DataStep(fs, archiveDir, record, k, f, m) == Ok(true)
  }

  /** `get_data_by_function(func, archive_dir)` */
  method DataByFunction(fs: FileSystem, archiveDir: string, f: FuncArg, m: Matcher)
    returns (r: Result<set<string>>)
    ensures var rec := ReadRecord(fs, archiveDir, DataRecordFile);
            r.Ok? <==> rec.Ok? && forall k :: k in rec.value ==>
                                    DataStep(fs, archiveDir, rec.value, k, f, m).Ok?
    ensures r.Ok? ==> r.value == DataSelected(fs, archiveDir, ReadRecord(fs, archiveDir, DataRecordFile).value, f, m)
  {
    var rec := ReadRecord(fs, archiveDir, DataRecordFile);
    if rec.Err? {
      return Err(rec.error);
    }
    var record := rec.value;
    var out: set<string> := {};
    var todo := record.Keys;
    while todo != {}
      invariant todo <= record.Keys
      invariant forall k :: k in record.Keys - todo ==> DataStep(fs, archiveDir, record, k, f, m).Ok?
      invariant out == set k | k in record.Keys - todo && DataStep(fs, archiveDir, record, k, f, m) == Ok(true)
      decreases todo
    {
      var k :| k in todo;
      var step := DataStep(fs, archiveDir, record, k, f, m);
      if step.Err? {
        return Err(step.error);
      }
      if step.value {
        out := out + {k};
      }
      todo := todo - {k};
    }
    return Ok(out);
  }

  /** A function name stored as an encoded document is matched by its
      text, like any other string. */
  lemma EncodedFuncIsMatched(fs: FileSystem, archiveDir: string, record: Record, k: string,
                             d: Json, pattern: string, m: Matcher)
    requires k in record && "func" in record[k] && record[k]["func"] == JDoc(d)
    ensures DataStep(fs, archiveDir, record, k, ByName(pattern), m)
            == if m(pattern, JDoc(d)) then Find(fs, archiveDir, k, Procedures.DescriptorFile) else Ok(false)
  {
  }

  /** `archive()` records the module under "module" while the query reads
      "func_module": for an entry `archive()` wrote, selecting by function
      compares the module pattern with 'unknown', never with the module. */
  lemma ArchivedModuleReadsUnknown(fs: FileSystem, archiveDir: string, record: Record, k: string,
                                   p: Procedures.Procedure, g: Procedures.FuncRef, m: Matcher)
    requires k in record && record[k] == Procedures.LedgerEntry(p)
    requires m(g.name, JStr(p.func))
    ensures DataStep(fs, archiveDir, record, k, ByFunction(g), m)
            == if m(g.moduleName, Unknown) then Find(fs, archiveDir, k, Procedures.DescriptorFile)
               else Ok(false)
  {
  }

  /** So an archived procedure whose module pattern does not match
      'unknown' is never returned, even when it matches the procedure's real
      module. */
  lemma ArchivedProcedureMissedByFunction(fs: FileSystem, archiveDir: string, record: Record,
                                          k: string, p: Procedures.Procedure, m: Matcher)
    requires k in record && record[k] == Procedures.LedgerEntry(p)
    requires !m(p.funcModule, Unknown)
    ensures k !in DataSelected(fs, archiveDir, record, ByFunction(Procedures.FuncRef(p.func, p.funcModule)), m)
  {
    var g := Procedures.FuncRef(p.func, p.funcModule);
    if m(g.name, JStr(p.func)) {
      ArchivedModuleReadsUnknown(fs, archiveDir, record, k, p, g, m);
    }
  }
}
