/** Record ledger: `read_json_obj`/`write_json_obj` on `trial_record.json`
    and `data_record.json`, and the merge performed by `KerasTrial.to_record`.
    A ledger maps a hash to a dictionary of metadata fields. */
module Ledger {
  import opened Results
  import opened Json
  import opened Files

  type Entry = map<string, Json>
  type Record = map<string, Entry>

  const TrialRecordFile: string := "trial_record.json"
  const DataRecordFile: string := "data_record.json"

  /** The JSON document a ledger is stored as. */
  function RecordJson(record: Record): Json {
    JObj(map h | h in record :: JObj(record[h]))
  }

  predicate AllObjects(fields: map<string, Json>) {
    forall h :: h in fields ==> fields[h].JObj?
  }

  /** `read_record(archive_dir)`: `read_json_obj` followed by use as a
      dictionary of dictionaries. A missing file is the empty ledger. */
  function ReadRecord(fs: FileSystem, archiveDir: string, filename: string): (r: Result<Record>)
    ensures archiveDir + filename !in fs.files ==> r == Ok(map[])
    ensures r.Ok? ==> ReadJsonObj(fs, archiveDir, filename) == Ok(RecordJson(r.value))
  {
    match ReadJsonObj(fs, archiveDir, filename)
    case Err(e) => Err(e)
    case Ok(j) =>
      if j.JObj? && AllObjects(j.fields) then
        var record := map h | h in j.fields :: j.fields[h].fields;
        assert RecordJson(record) == j by {
          assert RecordJson(record).fields.Keys == j.fields.Keys;
        }
        Ok(record)
      else Err(ValueError("record is not a dictionary of dictionaries"))
  }

  /** `write_record(record, archive_dir)`: only the ledger file changes. */
  function WriteRecord(fs: FileSystem, record: Record, archiveDir: string, filename: string): (r: FileSystem)
    ensures forall p :: p != archiveDir + filename ==> (p in r.files <==> p in fs.files)
    ensures forall p :: p != archiveDir + filename && p in fs.files ==> r.files[p] == fs.files[p]
  {
    WriteJsonObj(fs, RecordJson(record), archiveDir, filename)
  }

  /** A ledger is read from its one file alone. */
  lemma SameLedgerFile(fs: FileSystem, fs': FileSystem, archiveDir: string, filename: string)
    requires (archiveDir + filename in fs.files) == (archiveDir + filename in fs'.files)
    requires archiveDir + filename in fs.files ==> fs'.files[archiveDir + filename] == fs.files[archiveDir + filename]
    ensures ReadRecord(fs', archiveDir, filename) == ReadRecord(fs, archiveDir, filename)
  {
  }

  /** A written ledger reads back unchanged. */
  lemma RecordRoundTrip(fs: FileSystem, record: Record, archiveDir: string, filename: string)
    ensures ReadRecord(WriteRecord(fs, record, archiveDir, filename), archiveDir, filename) == Ok(record)
  {
    var j := RecordJson(record);
    var back := map h | h in j.fields :: j.fields[h].fields;
    assert back.Keys == record.Keys;
    assert back == record;
  }

  // ---------------------------------------------------------------------
  // Merging one field (the body of the loop in `to_record`)
  // ---------------------------------------------------------------------

  ghost predicate NoDuplicates(s: seq<Json>) {
    forall i, j :: 0 <= i < j < |s| ==> s[i] != s[j]
  }

  /** `list(set(s))`: each element once. Python leaves the order of a set
      unspecified; this keeps first occurrences in order. */
  function Dedup(s: seq<Json>): (r: seq<Json>)
    ensures NoDuplicates(r)
    ensures forall x :: x in r <==> x in s
    ensures |r| <= |s|
  {
    if |s| == 0 then []
    else
      var rest := Dedup(s[..|s| - 1]);
      assert forall x :: x in s <==> x in s[..|s| - 1] || x == s[|s| - 1] by {
        assert s == s[..|s| - 1] + [s[|s| - 1]];
      }
      if s[|s| - 1] in rest then rest else rest + [s[|s| - 1]]
  }

  const Unhashable: Error := TypeError("unhashable type")

  /** The value `to_record` stores under a key, given the value already
      there (`prev`) and the new value `v`. */
  function MergedValue(prev: Option<Json>, v: Json, append: bool, replace: bool): (r: Result<Json>)
    ensures r.Err? ==> r.error == Unhashable
    ensures r.Err? <==> append && replace && prev.Some? &&
                        !(Hashable(v) && forall x :: x in AsList(prev.value) ==> Hashable(x))
  {
    if append then
      if prev.Some? then
        var xs := AsList(prev.value);
        if replace then
          if Hashable(v) && forall x :: x in xs ==> Hashable(x) then Ok(JList(Dedup(xs + [v])))
          else Err(Unhashable)
        else Ok(JList(xs + [v]))
      else Ok(v)
    else if replace || prev.None? then Ok(v)
    else Ok(prev.value)
  }

  function Lookup(entry: Entry, key: string): Option<Json> {
    if key in entry then Some(entry[key]) else None
  }

  /** Every field of `dct` merges without error. */
  predicate Mergeable(entry: Entry, dct: Entry, append: bool, replace: bool) {
    forall k :: k in dct ==> MergedValue(Lookup(entry, k), dct[k], append, replace).Ok?
  }

  /** The whole-dictionary merge of `to_record`, stated key by key: the keys
      of `dct` take their merged value, every other key keeps its value. */
  function MergeEntry(entry: Entry, dct: Entry, append: bool, replace: bool): (r: Result<Entry>)
    ensures r.Ok? <==> Mergeable(entry, dct, append, replace)
    ensures r.Err? ==> r.error == Unhashable
    ensures r.Ok? ==> r.value.Keys == entry.Keys + dct.Keys
    ensures r.Ok? ==> forall k :: k in entry && k !in dct ==> r.value[k] == entry[k]
  {
    if Mergeable(entry, dct, append, replace) then
      Ok(map k | k in entry.Keys + dct.Keys ::
           if k in dct then MergedValue(Lookup(entry, k), dct[k], append, replace).value
           else entry[k])
    else Err(Unhashable)
  }

  /** `for key in dct: ...` as the source runs it, one key at a time in
      whatever order the dictionary yields; it computes `MergeEntry`. */
  method MergeByLoop(entry: Entry, dct: Entry, append: bool, replace: bool) returns (r: Result<Entry>)
    ensures r == MergeEntry(entry, dct, append, replace)
  {
    var d := entry;
    var todo := dct.Keys;
    while todo != {}
      invariant todo <= dct.Keys
      invariant d.Keys == entry.Keys + (dct.Keys - todo)
      invariant forall k :: k in dct.Keys - todo ==>
                  MergedValue(Lookup(entry, k), dct[k], append, replace).Ok? &&
                  d[k] == MergedValue(Lookup(entry, k), dct[k], append, replace).value
      invariant forall k :: k in d && k !in dct.Keys - todo ==> d[k] == entry[k]
      decreases todo
    {
      var k :| k in todo;
      assert Lookup(d, k) == Lookup(entry, k);
      var m := MergedValue(Lookup(d, k), dct[k], append, replace);
      if m.Err? {
        assert !Mergeable(entry, dct, append, replace);
        return Err(m.error);
      }
      d := d[k := m.value];
      todo := todo - {k};
    }
    LoopDoneIsMerge(entry, dct, append, replace, d);
    return Ok(d);
  }

  /** The state `MergeByLoop` ends in, once every key of `dct` is merged,
      is the merged entry. */
  lemma LoopDoneIsMerge(entry: Entry, dct: Entry, append: bool, replace: bool, d: Entry)
    requires d.Keys == entry.Keys + dct.Keys
    requires forall k :: k in dct.Keys ==>
               MergedValue(Lookup(entry, k), dct[k], append, replace).Ok? &&
               d[k] == MergedValue(Lookup(entry, k), dct[k], append, replace).value
    requires forall k :: k in d && k !in dct.Keys ==> d[k] == entry[k]
    ensures MergeEntry(entry, dct, append, replace) == Ok(d)
  {
    assert Mergeable(entry, dct, append, replace);
    var expected := MergeEntry(entry, dct, append, replace).value;
    assert d.Keys == expected.Keys;
    assert forall k :: k in d ==> d[k] == expected[k];
    assert d == expected;
  }

  // ---------------------------------------------------------------------
  // Merge semantics by mode
  // ---------------------------------------------------------------------

  /** `append=False, replace=True`: every key of `dct` takes its new value. */
  lemma MergeReplaceOverwrites(entry: Entry, dct: Entry)
    ensures MergeEntry(entry, dct, false, true) == Ok(entry + dct)
  {
    assert Mergeable(entry, dct, false, true);
    var r := MergeEntry(entry, dct, false, true).value;
    assert r.Keys == (entry + dct).Keys;
    assert forall k :: k in r ==> r[k] == (entry + dct)[k];
    assert r == entry + dct;
  }

  /** `append=False, replace=False`: existing keys are left alone, only absent
      keys are added. */
  lemma MergeKeepPreservesExisting(entry: Entry, dct: Entry)
    ensures MergeEntry(entry, dct, false, false) == Ok(dct + entry)
  {
    assert Mergeable(entry, dct, false, false);
    var r := MergeEntry(entry, dct, false, false).value;
    assert r.Keys == (dct + entry).Keys;
    assert forall k :: k in r ==> r[k] == (dct + entry)[k];
    assert r == dct + entry;
  }

  /** `append=True, replace=False`: an absent key gets the scalar; an existing
      one becomes a list that grows by exactly the new value, at the end. */
  lemma MergeAppendExtends(entry: Entry, dct: Entry, k: string)
    requires k in dct
    ensures MergeEntry(entry, dct, true, false).Ok?
    ensures k !in entry ==> MergeEntry(entry, dct, true, false).value[k] == dct[k]
    ensures k in entry ==>
              var items := MergeEntry(entry, dct, true, false).value[k].items;
              && MergeEntry(entry, dct, true, false).value[k].JList?
              && |items| == |AsList(entry[k])| + 1
              && items[..|items| - 1] == AsList(entry[k])
              && items[|items| - 1] == dct[k]
  {
    assert Mergeable(entry, dct, true, false);
  }

  /** `append=True, replace=True`: an existing key becomes a duplicate-free
      list holding the old values and the new one (set semantics). */
  lemma MergeAppendAsSet(entry: Entry, dct: Entry, k: string)
    requires k in dct && k in entry
    requires MergeEntry(entry, dct, true, true).Ok?
    ensures var v := MergeEntry(entry, dct, true, true).value[k];
            && v.JList?
            && NoDuplicates(v.items)
            && (forall x :: x in v.items <==> x in AsList(entry[k]) || x == dct[k])
  {
    var xs := AsList(entry[k]);
    assert forall x :: x in xs + [dct[k]] <==> x in xs || x == dct[k];
  }

  /** Set semantics absorb a value that is already present: merging it into a
      duplicate-free list gives the same values, each once, in some order. */
  lemma {:induction false} DedupAbsorbs(xs: seq<Json>, v: Json)
    requires NoDuplicates(xs) && v in xs
    ensures multiset(Dedup(xs + [v])) == multiset(xs)
  {
    DedupOfDistinct(xs);
    assert (xs + [v])[..|xs|] == xs;
  }

  /** A duplicate-free list survives `list(set(s))` as a permutation of
      itself. */
  lemma {:induction false} DedupOfDistinct(xs: seq<Json>)
    requires NoDuplicates(xs)
    ensures multiset(Dedup(xs)) == multiset(xs)
  {
    if |xs| > 0 {
      var init := xs[..|xs| - 1];
      DedupOfDistinct(init);
      assert xs[|xs| - 1] !in init;
      assert xs == init + [xs[|xs| - 1]];
    }
  }

  // ---------------------------------------------------------------------
  // Whole-ledger operations
  // ---------------------------------------------------------------------

  /** `record.get(h, {})` merged with `dct`, then stored back under `h`;
      entries of other hashes are untouched. */
  function Upsert(record: Record, h: string, dct: Entry, append: bool, replace: bool): (r: Result<Record>)
    ensures r.Ok? <==> Mergeable(if h in record then record[h] else map[], dct, append, replace)
    ensures r.Ok? ==> h in r.value && r.value.Keys == record.Keys + {h}
    ensures r.Ok? ==> forall k :: k in record && k != h ==> r.value[k] == record[k]
    ensures r.Ok? ==> r.value[h] == MergeEntry(if h in record then record[h] else map[], dct, append, replace).value
  {
    var entry := if h in record then record[h] else map[];
    match MergeEntry(entry, dct, append, replace)
    case Err(e) => Err(e)
    case Ok(merged) => Ok(record[h := merged])
  }

  /** The merge example: store 1, add 2 as a set, then try to put 3 without
      replacing. */
  lemma UpsertExample(h: string)
    ensures var r1 := Upsert(map[], h, map["a" := JInt(1)], false, true);
            && r1.Ok?
            && var r2 := Upsert(r1.value, h, map["a" := JInt(2)], true, true);
            && r2.Ok? && r2.value[h]["a"] == JList([JInt(1), JInt(2)])
            && var r3 := Upsert(r2.value, h, map["a" := JInt(3)], false, false);
            && r3.Ok? && r3.value[h]["a"] == JList([JInt(1), JInt(2)])
  {
    var r1 := Upsert(map[], h, map["a" := JInt(1)], false, true);
    MergeReplaceOverwrites(map[], map["a" := JInt(1)]);
    assert r1.value[h] == map["a" := JInt(1)];
    assert Mergeable(r1.value[h], map["a" := JInt(2)], true, true);
    var r2 := Upsert(r1.value, h, map["a" := JInt(2)], true, true);
    assert [JInt(1)] + [JInt(2)] == [JInt(1), JInt(2)];
    assert Dedup([JInt(1), JInt(2)]) == [JInt(1), JInt(2)] by {
      assert [JInt(1), JInt(2)][..1] == [JInt(1)];
      assert Dedup([JInt(1)]) == [JInt(1)] by {
        assert [JInt(1)][..0] == [];
      }
    }
    assert r2.value[h]["a"] == JList([JInt(1), JInt(2)]);
    MergeKeepPreservesExisting(r2.value[h], map["a" := JInt(3)]);
  }
}
