# A content-addressed archive for data procedures and Keras trials

This project models, in Dafny, the archive of `utils/archiving.py` in
CMS_Deep_Learning. The archive stores two kinds of object under the SHA-1 of
their JSON description:

- a **DataProcedure** names a function, its module and its arguments.
  `getData()` calls the function once, stores the returned `(X, Y)` in the
  blob as `archive.h5`, and reads it back on later calls;
- a **KerasTrial** holds the settings of a training run. Its description goes
  to `trial.json`, and its metadata (name, statistics) goes to a ledger.

A blob lives at `archive_dir + "blobs/" + h[:5] + "/" + h[5:] + "/"`. Each kind
has a record ledger (`data_record.json`, `trial_record.json`). A ledger maps a
hash to a dictionary of fields; `to_record` merges new fields into it in one of
four modes. `get_trials_by_name` and `get_data_by_function` walk a ledger and
return the blobs whose entries match a pattern.

The modules follow the parts of the archive:

| module | file | what it holds |
|---|---|---|
| `Results` | results.dfy | `Option`, Python's exception classes, `Result` with `:-` propagation |
| `Json` | json.dfy | decoded JSON values, `dict.get`, list coercion |
| `StringOrder` | string_order.dfy | Python's string order, `keys.sort()` on a key set, `list.sort()`, `str(n)` |
| `Files` | files.dfy | the filesystem as directories plus a path-to-contents map; `read_json_obj`, `write_json_obj`, `write_object`, `os.makedirs`, `shutil.rmtree` |
| `BlobPaths` | blob_paths.dfy | `compute_hash` (a parameter), `split_hash`, `get_blob_path` |
| `Storable` | storable.dfy | the cached `hash()`, the fresh `get_path()`, `remove_from_archive` |
| `Ledger` | ledger.dfy | `read_record`/`write_record` and the merge of `to_record` |
| `Payload` | payload.dfy | the `X`/`Y` groups of `archive.h5`, written by index and read back by sorted name |
| `Procedures` | procedures.dfy | `DataProcedure`: identity, `is_archived`, `archive`, `getData`, removal |
| `Callbacks` | callbacks.dfy | `encodeCallback`, `decodeCallback`, the callback filter of `setFit` |
| `Trials` | trials.dfy | `KerasTrial`: the constructor and setters, `to_record`, `get_record_entry`, `get_from_record`, `is_complete`, `write`, `execute`, removal |
| `Queries` | queries.dfy | `get_trials_by_name`, `get_data_by_function`, `find_by_hashcode` |

These modelling choices apply throughout:

- **Mutation as state passing.** Python mutates objects and the disk. Each
  operation here is a function that takes the filesystem and the object, and
  returns the new filesystem and the updated object, for instance one whose
  hash is now cached. An operation that can raise after writing returns an
  `Outcome`: the filesystem as the exception left it, together with the result
  or the error.
- **Inputs the archive cannot see are parameters.** SHA-1 is a parameter
  `sha: Json -> Digest`, where a digest is 40 lower-case hex digits. The
  function registry that `get_func` consults is a map from (name, module) to
  the call's outcome. Regular-expression matching is a parameter
  `(pattern, value) -> bool` over string values: a plain string, or an
  encoded document, which Python also holds as a `str`. The Keras work inside `execute` is a parameter
  that returns the new filesystem and the statistics to record.
- **Quirks of the code that the model keeps.**
  - the descriptor files are `procedure.json` and `trial.json`, and the
    payload is `archive.h5`;
  - a payload round trip holds only up to ten arrays per group, because the
    read-back sorts dataset names as strings;
  - `archive()` writes the function's module under `"module"`, but the query
    reads `"func_module"`;
  - a failed ledger write is not an error, because the code swallows the
    IOError. The model's writes always succeed.

## Model

| member | source | states |
|---|---|---|
| BlobPaths.SplitHash | utils/archiving.py:999-1001 | the two parts concatenate back to the hash, and the first has length min(5, len(h)) |
| BlobPaths.GetBlobPath | utils/archiving.py:1003-1036 | the call succeeds exactly for the accepted argument shapes; each shape gives the layout of its hash (the Storable's hash, the string, the hash of the json, or the hashcode); more than two positional arguments is a ValueError, as are a missing directory or a missing hash |
| BlobPaths.LayoutShape | utils/archiving.py:1035 | a blob path is archive_dir + "blobs/" + h[:5] + "/" + h[5:] + "/", and lies inside its fan-out directory |
| BlobPaths.BlobDirsDisjoint | utils/archiving.py:990-1001 | two digests whose blob directories nest are equal: distinct hashes never share a blob |
| BlobPaths.RecordOutsideBlobs | utils/archiving.py:329-336 | the ledger files in the archive directory lie outside every blob and fan-out directory |
| Files.ReadJsonObj | utils/archiving.py:1049-1057 | a missing file reads as {}; a JSON file reads as its document; anything else fails to decode |
| Files.WriteJsonObj | utils/archiving.py:1059-1065 | read_json_obj returns what write_json_obj stored; no other file appears, disappears or changes |
| Files.WriteObject | utils/archiving.py:1069-1080 | the directory exists afterwards and the file holds the data; no other file appears or disappears |
| Files.RemoveTree | utils/archiving.py:51-52 | rmtree removes exactly the paths inside the directory and keeps every other file with its contents |
| Files.WriteFilePreservesWellFormed | utils/archiving.py:1069-1080 | writing a file keeps every file and directory inside existing directories |
| Storable.Hash | utils/archiving.py:29-33 | the cached hash is returned unchanged; otherwise the hash of the current description is computed and becomes the cache |
| Storable.HashIsStable | utils/archiving.py:29-33 | asking again returns the same hash and cache, even after the description changed |
| Storable.GetPath | utils/archiving.py:34-38 | get_path is get_blob_path of the fresh hash of the current description |
| Storable.GetPathMatchesCache | utils/archiving.py:29-38 | get_path and the cached hash name the same blob exactly when there is no cache or the cache is the hash of the current description |
| Storable.RemoveBlob | utils/archiving.py:45-56 | nothing inside the removed blob remains; other files keep their contents; the fan-out directory survives only when not empty |
| Storable.RemoveBlobParent | utils/archiving.py:51-54 | the fan-out directory is gone exactly when it was missing or left empty by removing the blob |
| Storable.RemoveBlobWellFormed | utils/archiving.py:45-56 | removal keeps the filesystem well-formed |
| Storable.RemoveFromArchive | utils/archiving.py:183-189 | removal succeeds exactly when the ledger can be read, and caches the hash |
| Storable.RemoveForgets | utils/archiving.py:45-56 | with a consistent cache, removal empties the blob, drops exactly this hash from the ledger, keeps every other file and keeps the filesystem well-formed |
| Ledger.ReadRecord | utils/archiving.py:329-331 | a missing ledger reads as the empty ledger, and a ledger that reads back is the document on disk |
| Ledger.WriteRecord | utils/archiving.py:930-932 | the ledger file is the only file written |
| Ledger.RecordRoundTrip | utils/archiving.py:329-336 | a written ledger reads back unchanged |
| Ledger.Dedup | utils/archiving.py:714-716 | list(set(xs)) has no duplicates and the same elements |
| Ledger.MergedValue | utils/archiving.py:707-724 | merging one field fails exactly in append+replace mode with an existing key and an unhashable value |
| Ledger.MergeEntry | utils/archiving.py:702-726 | the merge succeeds exactly when every field merges; afterwards the keys are the old keys plus those of dct, and keys not in dct keep their values |
| Ledger.MergeByLoop | utils/archiving.py:706-724 | the key-by-key loop of to_record, in any order, computes MergeEntry |
| Ledger.MergeReplaceOverwrites | utils/archiving.py:722-724 | append=False, replace=True: the entry becomes entry + dct, so every key of dct takes its new value |
| Ledger.MergeKeepPreservesExisting | utils/archiving.py:722-724 | append=False, replace=False: the entry becomes dct + entry, so existing keys are kept and only absent keys are added |
| Ledger.MergeAppendExtends | utils/archiving.py:707-721 | append=True, replace=False: an absent key gets the scalar; an existing one becomes the old list plus exactly the new value, last |
| Ledger.MergeAppendAsSet | utils/archiving.py:707-721 | append=True, replace=True: an existing key becomes a duplicate-free list of the old values and the new one |
| Ledger.DedupOfDistinct | utils/archiving.py:713-716 | list(set(xs)) of a duplicate-free list has the same elements, each once, in some order |
| Ledger.DedupAbsorbs | utils/archiving.py:713-716 | adding a value already present to a duplicate-free list gives back the same elements, each once, in some order |
| Ledger.Upsert | utils/archiving.py:702-726 | the merged entry is stored under the hash and every other hash's entry is untouched |
| Ledger.UpsertExample | utils/archiving.py:702-726 | storing 1, then adding 2 as a set, gives [1, 2]; a later non-replacing store of 3 leaves [1, 2] |
| StringOrder.SortedKeys | utils/archiving.py:198-201 | keys.sort() lists every key once, in strictly increasing string order |
| StringOrder.SortedKeysCharacterized | utils/archiving.py:198-201 | any strictly increasing listing of the keys is the sorted one |
| StringOrder.DecimalInjective | utils/archiving.py:152-156 | different indices get different dataset names str(i) |
| StringOrder.Sort | utils/archiving.py:461 | metrics.sort() is a permutation in non-decreasing string order |
| StringOrder.SortedPermutationUnique | utils/archiving.py:461 | two sorted lists with the same elements are equal, so a sorted permutation is unique |
| StringOrder.SortForgetsOrder | utils/archiving.py:461 | metrics.sort() gives the same list for any two orderings of the same metrics |
| Payload.Wrap | utils/archiving.py:148-149 | a non-list X or Y becomes a one-element list; a list is kept |
| Payload.StoreGroupContents | utils/archiving.py:150-156 | a stored group holds exactly the datasets str(0)..str(n-1), the i-th array under str(i) |
| Payload.ReadContainer | utils/archiving.py:196-214 | the read succeeds exactly when the file is an h5 container with groups X and Y; a read that fails before opening sets neither |
| Payload.GroupRoundTrip | utils/archiving.py:150-210 | up to ten arrays read back by sorted name come back in stored order |
| Payload.PayloadRoundTrip | utils/archiving.py:137-158 | reading the file archive() wrote gives back the wrapped X and Y, for at most ten arrays per group |
| Payload.IndexKeysUnsortedFromEleven | utils/archiving.py:198-201 | from eleven datasets on, index order is not string order ("10" sorts before "2") |
| Payload.ManyArraysBreakRoundTrip | utils/archiving.py:194-212 | eleven or more distinct arrays do not come back in stored order |
| Procedures.NewProcedure | utils/archiving.py:66-91 | a new procedure records the function's name and module, the arguments and the flags as given, with no hash, X or Y yet |
| Procedures.NewProcedureIdentity | utils/archiving.py:66-114 | two procedures built from the same function and positional arguments describe alike exactly when archive_getData agrees and the keyword arguments agree apart from verbose/verbosity; the directory plays no part |
| Procedures.ToJson | utils/archiving.py:98-114 | the description has exactly the fields archive_getData, args, class_name, func, func_module and kargs, with class_name "DataProcedure" |
| Procedures.ToJsonIdentity | utils/archiving.py:98-114 | two procedures have equal descriptions exactly when they agree on the function, the module, the arguments, archive_getData, and the keyword arguments other than verbose/verbosity |
| Procedures.Hash | utils/archiving.py:29-33 | the cached hash is returned; otherwise the hash of to_json is computed and cached |
| Procedures.PathAgreesWithHash | utils/archiving.py:29-38 | get_path names the blob of the cached hash exactly when the cache is consistent with the description |
| Procedures.HashKeepsPath | utils/archiving.py:29-38 | hashing does not move get_path, and keeps a consistent cache consistent |
| Procedures.IsArchived | utils/archiving.py:128-135 | is_archived is true exactly when archive.h5 exists in the blob of the cached hash, which it caches |
| Procedures.Write | utils/archiving.py:121-126 | procedure.json in the get_path blob holds the description |
| Procedures.StoreBlob | utils/archiving.py:140-158 | the payload holds the wrapped X and Y, a descriptor exists (an existing one is kept as it was), and data_record.json reads as before |
| Procedures.LedgerEntry | utils/archiving.py:161-170 | the ledger entry has exactly the keys func, module, args and kargs, copies them from the description, and renames func_module to module |
| Procedures.Archive | utils/archiving.py:137-177 | a missing X or Y is the ValueError of the source and writes nothing; a successful archive caches the hash |
| Procedures.ArchiveStores | utils/archiving.py:137-173 | archive succeeds exactly when the ledger can be read; the payload and a descriptor are written either way; on success the ledger gets this hash's entry added or replaced, on failure it is unchanged |
| Procedures.FailedArchiveIsArchived | utils/archiving.py:137-173 | when data_record.json cannot be read, archive fails but leaves the procedure archived, because archive.h5 was written first |
| Procedures.PlainError | utils/archiving.py:238-240 | the error for a value that is neither a tuple nor a generator: the ValueError of the source only when out[0] and out[1] exist, otherwise the IndexError, KeyError or TypeError that formatting the message raises |
| Procedures.Compute | utils/archiving.py:221-245 | a function missing from the registry is a ValueError; without archiving, nothing is written |
| Procedures.GetData | utils/archiving.py:191-246 | without archiving nothing is written; a generator result is only ever returned with archive_getData turned off |
| Procedures.ReadFailureRecomputes | utils/archiving.py:194-220 | an archived procedure whose payload fails to read is computed again, as the except branch's redo=True call does |
| Procedures.PlainIsError | utils/archiving.py:227-240 | a value that is neither a tuple nor a generator is an error and writes nothing; a list or string of two or more is the ValueError of the source |
| Procedures.HitDoesNotCall | utils/archiving.py:194-220 | an archived procedure whose payload reads is served without calling its function (any registry gives the same result) and without writing |
| Procedures.GeneratorDisablesArchiving | utils/archiving.py:234-245 | a generator result turns archive_getData off and writes nothing |
| Procedures.WrongArityFails | utils/archiving.py:227-233 | a tuple of any length other than two is a ValueError |
| Procedures.FirstCallArchives | utils/archiving.py:221-246 | a 2-tuple of arrays sets X and Y and archives them when archiving is on |
| Procedures.HitReadsPayload | utils/archiving.py:194-214 | a hit on a payload of at most ten arrays per group reads X and Y back as lists and changes nothing |
| Procedures.SecondCallReadsBack | utils/archiving.py:191-246 | compute-then-ask-again returns the same arrays from the archive without calling the function or writing |
| Procedures.RemoveFromArchive | utils/archiving.py:183-189 | removal succeeds exactly when data_record.json can be read, and caches the hash |
| Procedures.RemoveUnarchives | utils/archiving.py:183-189 | afterwards the procedure is not archived, its blob is empty, the ledger lost exactly its hash, other files are unchanged and the filesystem is well-formed |
| Callbacks.EncodeCallback | utils/archiving.py:952-968 | stopping callbacks record their type, with mode always 'auto'; any other callback encodes to {} |
| Callbacks.Field | utils/archiving.py:971-986 | d[key] succeeds exactly on a dict holding the key; a missing key is a KeyError |
| Callbacks.DecodeCallback | utils/archiving.py:971-986 | a missing 'type' is a KeyError, an unknown type decodes to None, and only stopping callbacks come back |
| Callbacks.CallbackRoundTrip | utils/archiving.py:952-986 | decoding an encoded stopping callback gives it back with mode 'auto' |
| Callbacks.EncodeForgetsOnlyMode | utils/archiving.py:952-968 | two stopping callbacks encode alike exactly when they agree on everything but the mode |
| Callbacks.OtherCallbackDoesNotDecode | utils/archiving.py:952-986 | any other Keras callback is stored as {}, which decodeCallback rejects with KeyError 'type' |
| Callbacks.FilterCallbacks | utils/archiving.py:476-483 | the filtered list is no longer than the given one, and as long when no callback is a SmartCheckpoint |
| Callbacks.Kept | utils/archiving.py:476-478 | the kept callbacks are exactly the given ones other than SmartCheckpoint |
| Callbacks.FilterStoresKept | utils/archiving.py:476-483 | setFit stores exactly the kept callbacks, in order, each encoded if it is a Keras callback |
| Callbacks.RefilterKeepsStored | utils/archiving.py:476-483 | filtering an already stored list again leaves it unchanged |
| Trials.ToJson | utils/archiving.py:934-948 | the encoded trial is a JSON object of exactly its settings |
| Trials.ToJsonIdentity | utils/archiving.py:938-948 | two trials have equal descriptions exactly when their settings agree; name, archive_dir, hashcode and compiled_model play no part |
| Trials.Hash | utils/archiving.py:29-33 | the cached hash is returned; otherwise the hash of the settings dictionary alone, without name, archive_dir or compiled_model, is computed and cached |
| Trials.NormalizeDir | utils/archiving.py:371-372 | an empty directory is an IndexError; otherwise the result ends in '/', adding one only when missing |
| Trials.NormalizeDirIdempotent | utils/archiving.py:371-372 | normalising twice is normalising once |
| Trials.SetModel | utils/archiving.py:402-407 | only the model setting changes, and the compiled model is forgotten |
| Trials.PrepItems | utils/archiving.py:412-422 | the list is prepared exactly when no element is other than a DataProcedure or a string; each element is stored in order, else the TypeError |
| Trials.PrepProcedure | utils/archiving.py:409-423 | None stays None; a single value is wrapped into a one-element list; a list is stored element by element in order, or raises the TypeError naming the procedure |
| Trials.SetTrain | utils/archiving.py:425-429 | succeeds exactly when the procedure prepares; stores the prepared procedure as train_procedure and samples_per_epoch as given, and leaves every other setting and field as it was |
| Trials.SetValidation | utils/archiving.py:431-453 | succeeds exactly when the split (a float val_procedure replacing it) is a float, nb_val_samples is an int or None, and the procedure prepares; stores the split, the prepared procedure and nb_val_samples, and leaves every other setting and field as it was |
| Trials.FloatValidationIsSplit | utils/archiving.py:438-440 | a float val_procedure is the same call as passing it as validation_split with no procedure |
| Trials.SetCompilation | utils/archiving.py:455-465 | stores optimizer, loss and sample_weight_mode as given and the metrics sorted; every other setting and field keeps its value |
| Trials.CompilationSortsMetrics | utils/archiving.py:455-465 | the order in which the metrics are given does not matter: any two orderings of the same metrics give the same trial, whose metrics are stored as sorted strings |
| Trials.SetFit | utils/archiving.py:467-492 | stores batch_size, nb_epoch, shuffle, class_weight and sample_weight as given and the callbacks filtered; every other setting and field keeps its value |
| Trials.SetFitGenerator | utils/archiving.py:494-520 | stores nb_epoch, class_weight, max_q_size, nb_worker and pickle_safe as given and the callbacks filtered; every other setting and field keeps its value |
| Trials.DataSettings | utils/archiving.py:373-378 | the first three setters succeed exactly when the training and validation arguments are accepted, and set six settings |
| Trials.FitArgs | utils/archiving.py:387-399 | setFit then setFit_Generator store the nine fit settings from the constructor's arguments, the shared ones rewritten with the same values; every other setting and field keeps its value |
| Trials.FitSettings | utils/archiving.py:380-399 | the last three setters add the thirteen compilation and fit settings and leave the fields outside the settings as they were |
| Trials.FitSettingsValues | utils/archiving.py:380-399 | each of the thirteen settings holds the value of its constructor argument (metrics sorted, callbacks filtered), and every other setting keeps its value |
| Trials.NewTrial | utils/archiving.py:343-400 | the constructor succeeds exactly when the directory is non-empty and the training and validation arguments are accepted; the trial is not hashed yet |
| Trials.NewTrialKeys | utils/archiving.py:343-400 | a constructed trial holds a value for each of its nineteen settings |
| Trials.NewTrialIdentity | utils/archiving.py:343-400 | the same arguments give the same description in any directory and under any name |
| Trials.DefaultTrial | utils/archiving.py:343-367 | the constructor's defaults are accepted for any non-empty directory |
| Trials.ToRecord | utils/archiving.py:702-726 | an unreadable ledger is an error, and success caches the hash |
| Trials.ToRecordStores | utils/archiving.py:702-726 | to_record succeeds exactly when the entry merges, and writes back the ledger with this hash's entry merged and every other entry as it was |
| Trials.GetRecordEntry | utils/archiving.py:728-731 | the entry is present exactly when the cached hash is in the ledger |
| Trials.RecordThenEntry | utils/archiving.py:702-731 | get_record_entry reads back what to_record merged |
| Trials.GetFromRecord | utils/archiving.py:733-742 | an empty key list gives [] even without an entry; otherwise succeeds exactly when the trial has an entry; a key list gives one value per key, None where missing; a single key gives its value |
| Trials.RecordThenGet | utils/archiving.py:702-742 | after to_record in replace mode every key of dct reads back as its new value |
| Trials.NonEmpty | utils/archiving.py:765 | len(v) > 0 for the values len accepts, a TypeError otherwise |
| Trials.IsComplete | utils/archiving.py:758-770 | no history.json means not complete; otherwise complete exactly when history.json is a JSON object whose 'stops' is non-empty |
| Trials.DescriptionApartFromLedger | utils/archiving.py:607-614 | trial.json is not the ledger file, so writing it leaves trial_record.json as it was |
| Trials.NameMerge | utils/archiving.py:614 | appending the name as a set succeeds exactly when the stored names are hashable, and then lists the name |
| Trials.Write | utils/archiving.py:607-614 | trial.json is written with the description whether or not the rest fails; write succeeds exactly when trial_record.json reads and its names for this hash are hashable, and then the ledger entry lists the trial's name |
| Trials.ElapseTime | utils/archiving.py:744-750 | get_history()['elapse_time'] succeeds exactly when history.json is a JSON object holding 'elapse_time', and gives its value; a missing or empty history is the TypeError of subscripting None, and a history without the key is a KeyError |
| Trials.Execute | utils/archiving.py:617-666 | a trial without a training procedure is the ValueError of the source and writes nothing; only a trial that is not complete is written to |
| Trials.ExecuteWithoutHistoryFails | utils/archiving.py:656-661 | a training that leaves no history.json fails with the TypeError, after write() has stored trial.json and the name |
| Trials.ExecuteKeepsDescription | utils/archiving.py:617-666 | after training succeeds, trial.json holds the trial's description |
| Trials.ExecuteCompleteIsNoop | utils/archiving.py:620-666 | a complete trial is not trained again: execute changes nothing but the cached hash |
| Trials.ExecuteRecordsStatistics | utils/archiving.py:620-665 | an incomplete trial is trained, and the statistics of the training, with elapse_time from history.json, read back from its ledger entry |
| Trials.RemoveFromArchive | utils/archiving.py:867-873 | removal succeeds exactly when trial_record.json can be read, and caches the hash |
| Trials.RemoveForgetsTrial | utils/archiving.py:867-873 | afterwards nothing remains in the blob, the trial is not complete, and it has no ledger entry |
| Queries.Find | utils/archiving.py:313-326 | a blob without a descriptor is not found; a JSON descriptor is found; anything else fails to decode |
| Queries.TrialsByName | utils/archiving.py:1125-1141 | the query fails exactly when the ledger is unreadable or some entry's test fails, and otherwise returns exactly the hashes whose names match and whose trial.json exists; any string value is matched, encoded documents included, and only a non-string name is the TypeError of re.match |
| Queries.EncodedNameIsMatched | utils/archiving.py:1129-1136 | a name stored as an encoded document is a string to re.match: it is matched like any name, not rejected |
| Queries.WrittenTrialIsFound | utils/archiving.py:1125-1141 | a written trial is found by every pattern matching its name |
| Queries.DataByFunction | utils/archiving.py:1092-1118 | the query fails exactly when the ledger is unreadable or some entry's test fails, and otherwise returns exactly the hashes whose function (and module) match and whose procedure.json exists; any string value is matched, encoded documents included, and only a non-string is the TypeError of re.match |
| Queries.EncodedFuncIsMatched | utils/archiving.py:1105-1116 | a function name stored as an encoded document is matched like any string |
| Queries.ArchivedModuleReadsUnknown | utils/archiving.py:1105-1113 | for an entry archive() wrote, the module pattern is matched against 'unknown', never the real module |
| Queries.ArchivedProcedureMissedByFunction | utils/archiving.py:1092-1118 | an archived procedure whose module pattern does not match 'unknown' is never returned by function |

## Left out

- SHA-1 (FIPS 180-4) and the JSON text encoding. The hash is the parameter `sha` over decoded documents. Distinct digests are proved to give distinct blobs, but nothing assumes the hash is injective.
- h5py and numpy. An array is a sequence of integers, and a container is a map from group name to dataset name to array.
- Keras: `compile`, `fit`, `fit_generator`, `test`, `_generateCallbacks`, `_history_to_record`, `get_model`, and the floating-point `num_train`/`num_validation` arithmetic of `execute`. The training step of `execute` is a parameter that returns the new filesystem and the statistics; the loop over training procedures and the validation-procedure checks are inside it.
- `get_func`: the exec-based import is replaced by a registry map, and a missing function is a ValueError.
- `DataProcedure.from_json`, `KerasTrial.from_json`, `recurseStore` and `set_encoder`: argument decoding and custom encoders. `find_by_hashcode` is reduced to "the descriptor file is a JSON document".
- `summary`, `get_summary` and all printing.
- Regular expressions. `re.match` is the parameter `Matcher`, applied to any string value, encoded documents included.
- `read_dataArchive`/`write_dataArchive` (the `data_archive.json` helpers nothing in the core calls), `get_all_data` and `get_all_trials`. The last two are the queries with the pattern `'.'`.
- Failed writes. The model's writes always succeed. In the source, `write_json_obj` swallows a failed write, but a failed `write_object` raises: `os.makedirs` is outside the `try` (OSError), and `f.close()` after a caught IOError from `open` raises UnboundLocalError. `Storable.remove_from_archive` catches every exception, and the model's removal never fails.
- Concurrency: the ledger's read-modify-write is modelled for one writer.
- `delphi_analysis/LSTMTrials.py` and `utils/MPIKerasTrial_execute.py`: a sweep script and MPI glue, outside the archive.
- Python's cross-type equality (`1 == 1.0 == True`) and the unicode/str split. JSON values compare structurally.
- Ledger.ReadRecord: the model expects a dictionary of dictionaries. A ledger of any other shape is a ValueError where Python would fail later, or not at all.
- Ledger.Dedup: Python leaves the order of `list(set(x))` unspecified. The model keeps first occurrences, but its contracts and lemmas promise only the elements, each once. Ledger.UpsertExample relies on the order CPython gives small integers.
- Lost in-memory state. When an operation raises, the model returns the filesystem as it stands and the error, but not the object. The X and Y that getData sets and the hash that archive, write and execute cache before raising are lost.
- Procedures.GetData: the hit path reads through `ReadContainer`. An exception from `h5py` other than a missing file or group is not modelled.
- Payload.PayloadRoundTrip: the round trip is proved for at most ten arrays per group, which is where it holds (see Payload.ManyArraysBreakRoundTrip).
- Trials.NonEmpty: a JSON string that holds an encoded document has a non-empty text, so its length is taken as positive.
- Trials.NewTrial: when a setter raises part-way, Python leaves the earlier attributes set on the half-built object. The model returns only the error.
- Trials.ToRecord: on an error the model returns no new trial, so the hash Python caches before the merge fails is lost.
- Trials.SetValidation: Python assigns `validation_split` before `_prep_procedure` raises. The model returns only the error.
- Trials.SetCompilation: `metrics` is a list of strings. `metrics=None` or a string, for which `metrics.sort()` raises AttributeError, is not modelled.
- Trials.SetCompilation: `metrics.sort()` sorts the caller's list in place, and `self.metrics` is that same list. The model has no aliasing, and stores a sorted copy.
- Trials.Execute: `num_train`, `num_validation` and `fit_cycles` are the statistics the training parameter returns; `elapse_time` is read from `history.json` after `write()`, as in the source.
