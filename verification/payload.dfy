/** The h5 payload of a DataProcedure blob (`archive.h5`): groups `X` and `Y`
    holding one dataset per array, named `str(i)`, read back in the order of
    `keys.sort()`. */
module Payload {
  import opened Results
  import opened Files
  import opened StringOrder

  const PayloadFile: string := "archive.h5"

  /** An `X` or `Y` value as `getData` holds it: a list of arrays or one
      ndarray. */
  datatype Batch = ListOf(arrays: seq<Array>) | ArrayOf(single: Array)

  /** `if not isinstance(X, list): X = [X]` */
  function Wrap(b: Batch): (r: seq<Array>)
    ensures b.ListOf? ==> r == b.arrays
    ensures b.ArrayOf? ==> r == [b.single]
  {
    match b
    case ListOf(arrays) => arrays
    case ArrayOf(a) => [a]
  }

  /** The name of dataset `i` in a group: `str(i)`. */
  function DatasetName(i: nat): string {
    Decimal(i)
  }

  /** The names of the first `n` datasets: `str(0) .. str(n-1)`. */
  function Names(n: nat): set<string> {
    if n == 0 then {} else Names(n - 1) + {DatasetName(n - 1)}
  }

  lemma {:induction false} NameInNames(i: nat, n: nat)
    requires i < n
    ensures DatasetName(i) in Names(n)
  {
    if i < n - 1 {
      NameInNames(i, n - 1);
    }
  }

  lemma {:induction false} NameNotInNames(m: nat, n: nat)
    requires n <= m
    ensures DatasetName(m) !in Names(n)
  {
    if n > 0 {
      NameNotInNames(m, n - 1);
      if DatasetName(m) == DatasetName(n - 1) {
        DecimalInjective(m, n - 1);
      }
    }
  }

  /** `for i, x in enumerate(X): h5f.create_dataset('X/' + str(i), data=x)` */
  function StoreGroup(arrays: seq<Array>): map<string, Array> {
    if |arrays| == 0 then map[]
    else StoreGroup(arrays[..|arrays| - 1])[DatasetName(|arrays| - 1) := arrays[|arrays| - 1]]
  }

  /** A stored group holds exactly the datasets `str(0) .. str(n-1)`. */
  lemma {:induction false} StoreGroupKeys(arrays: seq<Array>)
    ensures StoreGroup(arrays).Keys == Names(|arrays|)
  {
    if |arrays| > 0 {
      StoreGroupKeys(arrays[..|arrays| - 1]);
    }
  }

  /** The `i`-th array is stored under `str(i)`. */
  lemma {:induction false} StoreGroupValues(arrays: seq<Array>)
    ensures forall i {:trigger DatasetName(i)} :: 0 <= i < |arrays| ==>
              DatasetName(i) in StoreGroup(arrays) && StoreGroup(arrays)[DatasetName(i)] == arrays[i]
  {
    if |arrays| > 0 {
      var n := |arrays| - 1;
      var prefix := arrays[..n];
      StoreGroupValues(prefix);
      forall i | 0 <= i < n
        ensures DatasetName(i) in StoreGroup(arrays) && StoreGroup(arrays)[DatasetName(i)] == arrays[i]
      {
        if DatasetName(i) == DatasetName(n) {
          DecimalInjective(i, n);
        }
        assert prefix[i] == arrays[i];
      }
    }
  }

  /** Both halves: a stored group holds exactly `str(0) .. str(n-1)`, the
      `i`-th array under `str(i)`. */
  lemma StoreGroupContents(arrays: seq<Array>)
    ensures StoreGroup(arrays).Keys == Names(|arrays|)
    ensures forall i {:trigger DatasetName(i)} :: 0 <= i < |arrays| ==>
              DatasetName(i) in StoreGroup(arrays) && StoreGroup(arrays)[DatasetName(i)] == arrays[i]
  {
    StoreGroupKeys(arrays);
    StoreGroupValues(arrays);
  }

  /** The h5 file `archive` writes: `X` and `Y` wrapped into lists and stored
      group by group. */
  function WriteContainer(x: Batch, y: Batch): Content {
    Container(map["X" := StoreGroup(Wrap(x)), "Y" := StoreGroup(Wrap(y))])
  }

  /** One group read back: its datasets in the order of the sorted key list. */
  function ReadGroup(g: map<string, Array>): seq<Array> {
    var ks := SortedKeys(g.Keys);
    seq(|ks|, i requires 0 <= i < |ks| => g[ks[i]])
  }

  /** What the read in `getData` leaves behind. `x`/`y` are `None` when the
      read never reached the assignment to `self.X`/`self.Y`; `ok` is false
      when it raised part-way. */
  datatype ReadOutcome = ReadOutcome(x: Option<seq<Array>>, y: Option<seq<Array>>, ok: bool)

  /** The `try` block of `getData`: open the file, then `self.X = []`, read
      group `X`, then `self.Y = []`, read group `Y`. */
  function ReadContainer(fs: FileSystem, path: string): (r: ReadOutcome)
    ensures r.ok <==> path in fs.files && fs.files[path].Container?
                      && "X" in fs.files[path].groups && "Y" in fs.files[path].groups
    ensures !(path in fs.files && fs.files[path].Container?) ==> r == ReadOutcome(None, None, false)
  {
    if path !in fs.files || !fs.files[path].Container? then ReadOutcome(None, None, false)
    else
      var groups := fs.files[path].groups;
      if "X" !in groups then ReadOutcome(Some([]), None, false)
      else if "Y" !in groups then ReadOutcome(Some(ReadGroup(groups["X"])), Some([]), false)
      else ReadOutcome(Some(ReadGroup(groups["X"])), Some(ReadGroup(groups["Y"])), true)
  }

  // ---------------------------------------------------------------------
  // Round trip
  // ---------------------------------------------------------------------

  /** `[str(0), .., str(n-1)]` */
  function IndexKeys(n: nat): (r: seq<string>)
    ensures |r| == n
    ensures forall i :: 0 <= i < n ==> r[i] == DatasetName(i)
  {
    if n == 0 then [] else IndexKeys(n - 1) + [DatasetName(n - 1)]
  }

  lemma {:induction false} IndexKeysListNames(n: nat)
    ensures forall k :: k in IndexKeys(n) <==> k in Names(n)
  {
    if n > 0 {
      IndexKeysListNames(n - 1);
      assert IndexKeys(n) == IndexKeys(n - 1) + [DatasetName(n - 1)];
    }
  }

  lemma SingleDigitKeysSorted(n: nat)
    requires n <= 10
    ensures StrictlySorted(IndexKeys(n))
  {
    var ks := IndexKeys(n);
    forall i, j | 0 <= i < j < |ks|
      ensures Lt(ks[i], ks[j])
    {
      assert ks[i] == [DigitChar(i)] && ks[j] == [DigitChar(j)];
    }
  }

  /** Up to ten arrays come back in the order they were stored. */
  lemma GroupRoundTrip(arrays: seq<Array>)
    requires |arrays| <= 10
    ensures ReadGroup(StoreGroup(arrays)) == arrays
  {
    var g := StoreGroup(arrays);
    var ks := IndexKeys(|arrays|);
    StoreGroupContents(arrays);
    SingleDigitKeysSorted(|arrays|);
    IndexKeysListNames(|arrays|);
    SortedKeysCharacterized(g.Keys, ks);
    var r := ReadGroup(g);
    assert |r| == |arrays|;
    forall i | 0 <= i < |r|
      ensures r[i] == arrays[i]
    {
      assert ks[i] == DatasetName(i);
    }
  }

  /** A file holding what `archive` wrote reads back as the wrapped lists,
      for groups of at most ten arrays. */
  lemma ReadStoredContainer(fs: FileSystem, path: string, x: Batch, y: Batch)
    requires path in fs.files && fs.files[path] == WriteContainer(x, y)
    requires |Wrap(x)| <= 10 && |Wrap(y)| <= 10
    ensures ReadContainer(fs, path) == ReadOutcome(Some(Wrap(x)), Some(Wrap(y)), true)
  {
    var c := WriteContainer(x, y);
    GroupRoundTrip(Wrap(x));
    GroupRoundTrip(Wrap(y));
    assert ReadGroup(c.groups["X"]) == Wrap(x);
    assert ReadGroup(c.groups["Y"]) == Wrap(y);
  }

  /** `read(write(X, Y)) == (X, Y)` for groups of at most ten arrays. */
  lemma PayloadRoundTrip(fs: FileSystem, path: string, x: Batch, y: Batch)
    requires |Wrap(x)| <= 10 && |Wrap(y)| <= 10
    ensures ReadContainer(WriteFile(fs, path, WriteContainer(x, y)), path)
            == ReadOutcome(Some(Wrap(x)), Some(Wrap(y)), true)
  {
    ReadStoredContainer(WriteFile(fs, path, WriteContainer(x, y)), path, x, y);
  }

  /** From eleven datasets on, the names in index order are not in string
      order: "10" sorts before "2". */
  lemma IndexKeysUnsortedFromEleven(n: nat)
    requires n >= 11
    ensures !StrictlySorted(IndexKeys(n))
  {
    var ks := IndexKeys(n);
    assert ks[2] == DatasetName(2) == "2";
    assert ks[10] == DatasetName(10) == "10";
    assert !Lt("2", "10");
  }

  /** Every stored name is the name of some stored index. */
  lemma {:induction false} NamesAreIndexNames(k: string, n: nat)
    requires k in Names(n)
    ensures exists j :: 0 <= j < n && k == DatasetName(j)
  {
    if k != DatasetName(n - 1) {
      NamesAreIndexNames(k, n - 1);
    }
  }

  /** If pairwise different arrays came back in stored order, the `i`-th
      sorted key would be `str(i)`. */
  lemma ReadBackInOrderEntry(arrays: seq<Array>, i: nat)
    requires forall i, j :: 0 <= i < j < |arrays| ==> arrays[i] != arrays[j]
    requires ReadGroup(StoreGroup(arrays)) == arrays
    requires i < |arrays|
    ensures i < |SortedKeys(StoreGroup(arrays).Keys)|
    ensures SortedKeys(StoreGroup(arrays).Keys)[i] == DatasetName(i)
  {
    var n := |arrays|;
    var g := StoreGroup(arrays);
    var ks := SortedKeys(g.Keys);
    StoreGroupContents(arrays);
    assert ks[i] in g.Keys;
    NamesAreIndexNames(ks[i], n);
    var j :| 0 <= j < n && ks[i] == DatasetName(j);
    assert arrays[i] == ReadGroup(g)[i] == g[ks[i]] == arrays[j];
    assert i == j;
  }

  /** ... and so the whole listing would be the index-order listing. */
  lemma ReadBackInOrderListing(arrays: seq<Array>)
    requires forall i, j :: 0 <= i < j < |arrays| ==> arrays[i] != arrays[j]
    requires ReadGroup(StoreGroup(arrays)) == arrays
    ensures SortedKeys(StoreGroup(arrays).Keys) == IndexKeys(|arrays|)
  {
    forall i | 0 <= i < |arrays|
      ensures SortedKeys(StoreGroup(arrays).Keys)[i] == IndexKeys(|arrays|)[i]
    {
      ReadBackInOrderEntry(arrays, i);
    }
  }

  /** With eleven or more pairwise different arrays the read-back order
      differs from the stored order: the round trip of `PayloadRoundTrip`
      does not extend past ten arrays. */
  lemma ManyArraysBreakRoundTrip(arrays: seq<Array>)
    requires |arrays| >= 11
    requires forall i, j :: 0 <= i < j < |arrays| ==> arrays[i] != arrays[j]
    ensures ReadGroup(StoreGroup(arrays)) != arrays
  {
    IndexKeysUnsortedFromEleven(|arrays|);
    if ReadGroup(StoreGroup(arrays)) == arrays {
      ReadBackInOrderListing(arrays);
    }
  }
}
