/** `KerasTrial` without Keras: the settings that make up its identity, the
    setters that fill them in, its ledger operations on `trial_record.json`,
    the completion check on `history.json`, and the guard of `execute`. */
module Trials {
  import opened Results
  import opened Json
  import opened Files
  import opened BlobPaths
  import Storable
  import opened Ledger
  import opened StringOrder
  import opened Callbacks
  import Procedures

  const TrialFile: string := "trial.json"
  const HistoryFile: string := "history.json"

  /** A trial. `settings` is the instance dictionary the encoder hashes; the
      name, the archive directory, the cached hash and the compiled model (an
      opaque handle) are kept apart because the encoder leaves them out. */
  datatype Trial = Trial(
    archiveDir: string,
    name: string,
    hashcode: Option<Digest>,
    compiledModel: Option<nat>,
    settings: map<string, Json>)

  /** The keys the constructor fills in. */
  const SettingKeys: set<string> := {
    "model", "train_procedure", "samples_per_epoch", "validation_split", "val_procedure",
    "nb_val_samples", "optimizer", "loss", "metrics", "sample_weight_mode", "batch_size",
    "nb_epoch", "callbacks", "shuffle", "class_weight", "sample_weight", "max_q_size",
    "nb_worker", "pickle_safe"}

  // ---------------------------------------------------------------------
  // Identity
  // ---------------------------------------------------------------------

  /** `to_json()` through `TrialEncoder.default`: the instance dictionary
      without `name`, `archive_dir`, `hashcode` and `compiled_model`. */
  function ToJson(t: Trial): (j: Json)
    ensures j.JObj? && j.fields == t.settings
  {
    JObj(t.settings)
  }

  /** Two trials hash alike exactly when their settings agree; the name,
      the directory, the cache and the compiled model play no part. */
  lemma ToJsonIdentity(t: Trial, u: Trial)
    ensures ToJson(t) == ToJson(u) <==> t.settings == u.settings
    ensures ToJson(t.(name := u.name, archiveDir := u.archiveDir, hashcode := u.hashcode,
                      compiledModel := u.compiledModel)) == ToJson(t)
  {
  }

  /** `KerasTrial.hash()`: an uncached trial is hashed from its settings
      alone, so its name and directory never change the hash. */
  function Hash(t: Trial, sha: Hasher): (r: (Digest, Trial))
    ensures r.1 == t.(hashcode := Some(r.0))
    ensures t.hashcode.Some? ==> r.0 == t.hashcode.value
    ensures t.hashcode.None? ==> r.0 == sha(JObj(t.settings))
  {
    var (h, cache) := Storable.Hash(t.hashcode, ToJson(t), sha);
    (h, t.(hashcode := cache))
  }

  function Path(t: Trial, sha: Hasher): string {
    Storable.GetPath(t.archiveDir, ToJson(t), sha)
  }

  predicate HashConsistent(t: Trial, sha: Hasher) {
    t.hashcode.None? || t.hashcode.value == sha(ToJson(t))
  }

  // ---------------------------------------------------------------------
  // Setters
  // ---------------------------------------------------------------------

  /** `archive_dir[len(archive_dir)-1]`: an empty directory name is an
      IndexError; otherwise a trailing '/' is added when missing. */
  function NormalizeDir(d: string): (r: Result<string>)
    ensures r.Err? <==> |d| == 0
    ensures r.Err? ==> r.error.IndexError?
    ensures r.Ok? ==> |r.value| > 0 && r.value[|r.value| - 1] == '/'
    ensures r.Ok? ==> r.value == d || r.value == d + "/"
    ensures r.Ok? && d[|d| - 1] == '/' ==> r.value == d
  {
    if |d| == 0 then Err(IndexError("string index out of range"))
    else if d[|d| - 1] != '/' then Ok(d + "/")
    else Ok(d)
  }

  /** Normalising twice is normalising once. */
  lemma NormalizeDirIdempotent(d: string)
    requires |d| > 0
    ensures NormalizeDir(NormalizeDir(d).value) == NormalizeDir(d)
  {
  }

  /** The `model` argument: a Keras model (kept as its JSON text) or any
      other value, kept as it is. */
  datatype ModelArg = KerasModel(text: string) | ModelValue(value: Json)

  /** `setModel`: also forgets the compiled model. */
  function SetModel(t: Trial, m: ModelArg): (r: Trial)
    ensures r.compiledModel.None?
    ensures "model" in r.settings
    ensures r.settings == t.settings[("model") := r.settings["model"]]
    ensures m.ModelValue? ==> r.settings["model"] == m.value
  {
    var stored := match m
      case KerasModel(text) => JStr(text)
      case ModelValue(v) => v;
    t.(settings := t.settings["model" := stored], compiledModel := None)
  }

  /** One element of a procedure argument: a DataProcedure, a string, or a
      value that is neither. A string argument is always `ProcStr`;
      `ProcOther` stands for the non-string values (never a `JStr` or
      `JDoc`), which `_prep_procedure` rejects. */
  datatype ProcItem =
    | ProcObj(proc: Procedures.Procedure)
    | ProcStr(s: string)
    | ProcOther(value: Json)

  /** A `train_procedure` / `val_procedure` argument: `None`, a single value
      (wrapped into a list), or a list. */
  datatype ProcArg = NoProc | Single(item: ProcItem) | Several(items: seq<ProcItem>)

  /** How `_prep_procedure` stores an accepted element: a DataProcedure as
      its JSON text, a string as it is. */
  function StoredItem(it: ProcItem): Json
    requires !it.ProcOther?
  {
    match it
    case ProcObj(p) => JDoc(Procedures.ToJson(p))
    case ProcStr(s) => JStr(s)
  }

  /** The loop of `_prep_procedure`: every element stored in order, or a
      TypeError for the first one that is neither a DataProcedure nor a
      string. */
  function PrepItems(items: seq<ProcItem>, name: string): (r: Result<seq<Json>>)
    ensures r.Ok? <==> forall i :: 0 <= i < |items| ==> !items[i].ProcOther?
    ensures r.Err? ==> r.error == TypeError(name + "_procedure must be DataProcedure")
    ensures r.Ok? ==> |r.value| == |items|
    ensures r.Ok? ==> forall i :: 0 <= i < |items| ==> r.value[i] == StoredItem(items[i])
  {
    if |items| == 0 then Ok([])
    else if items[0].ProcOther? then Err(TypeError(name + "_procedure must be DataProcedure"))
    else
      var rest :- PrepItems(items[1..], name);
      Ok([StoredItem(items[0])] + rest)
  }

  /** `_prep_procedure(procedure, name)`: `None` stays `None`, a single value
      is wrapped in a list first. */
  function PrepProcedure(arg: ProcArg, name: string): (r: Result<Option<seq<Json>>>)
    ensures r == Ok(None) <==> arg.NoProc?
    ensures arg.Single? ==> r == (if arg.item.ProcOther? then Err(TypeError(name + "_procedure must be DataProcedure"))
                                  else Ok(Some([StoredItem(arg.item)])))
    ensures arg.Several? ==> (r.Ok? <==> forall i :: 0 <= i < |arg.items| ==> !arg.items[i].ProcOther?)
    ensures arg.Several? && r.Ok? ==> r.value == Some(PrepItems(arg.items, name).value)
    ensures arg.Several? && r.Err? ==> r.error == TypeError(name + "_procedure must be DataProcedure")
  {
    match arg
    case NoProc => Ok(None)
    case Single(it) =>
      var l :- PrepItems([it], name);
      assert l == [StoredItem(it)];
      Ok(Some(l))
    case Several(items) =>
      var l :- PrepItems(items, name);
      Ok(Some(l))
  }

  /** A prepared procedure list as a setting: `None` is `null`. */
  function ProcSetting(procs: Option<seq<Json>>): Json {
    if procs.None? then JNull else JList(procs.value)
  }

  /** `setTrain` */
  function SetTrain(t: Trial, train: ProcArg, samplesPerEpoch: Json): (r: Result<Trial>)
    ensures r.Ok? <==> PrepProcedure(train, "train").Ok?
    ensures r.Ok? ==> r.value.settings.Keys == t.settings.Keys + {"train_procedure", "samples_per_epoch"}
    ensures r.Ok? ==> "train_procedure" in r.value.settings
    ensures r.Ok? ==> (r.value.settings["train_procedure"] == JNull <==> train.NoProc?)
    ensures r.Ok? ==> r.value.settings["train_procedure"] == ProcSetting(PrepProcedure(train, "train").value)
    ensures r.Ok? ==> r.value.settings["samples_per_epoch"] == samplesPerEpoch
    ensures r.Ok? ==> forall k :: k in t.settings && k != "train_procedure" && k != "samples_per_epoch" ==>
                        r.value.settings[k] == t.settings[k]
    ensures r.Ok? ==> r.value.(settings := t.settings) == t
  {
    var procs :- PrepProcedure(train, "train");
    Ok(t.(settings := t.settings["train_procedure" := ProcSetting(procs)]
                                ["samples_per_epoch" := samplesPerEpoch]))
  }

  /** `isinstance(v, int)`, where Python counts booleans as integers, or
      `v is None`. */
  predicate IntOrNone(v: Json) {
    v.JInt? || v.JBool? || v.JNull?
  }

  /** A float given as `val_procedure` is the validation split. */
  predicate IsSplit(arg: ProcArg) {
    arg.Single? && arg.item.ProcOther? && arg.item.value.JFloat?
  }

  /** `setValidation`: a float `val_procedure` becomes `validation_split`;
      the split must then be a float and `nb_val_samples` an int or `None`. */
  function SetValidation(t: Trial, val: ProcArg, validationSplit: Json, nbValSamples: Json)
    : (r: Result<Trial>)
    ensures var split := if IsSplit(val) then val.item.value else validationSplit;
            r.Ok? <==> split.JFloat? && IntOrNone(nbValSamples)
                       && PrepProcedure(if IsSplit(val) then NoProc else val, "val").Ok?
    ensures r.Ok? ==> r.value.settings.Keys == t.settings.Keys + {"validation_split", "val_procedure", "nb_val_samples"}
    ensures r.Ok? ==> "validation_split" in r.value.settings && "val_procedure" in r.value.settings
    ensures r.Ok? ==> r.value.settings["validation_split"].JFloat?
    ensures r.Ok? && IsSplit(val) ==>
              && r.value.settings["validation_split"] == val.item.value
              && r.value.settings["val_procedure"] == JNull
    ensures r.Ok? && !IsSplit(val) ==>
              && r.value.settings["validation_split"] == validationSplit
              && r.value.settings["val_procedure"] == ProcSetting(PrepProcedure(val, "val").value)
    ensures r.Ok? ==> r.value.settings["nb_val_samples"] == nbValSamples
    ensures r.Ok? ==> forall k :: k in t.settings && k != "validation_split" && k != "val_procedure" && k != "nb_val_samples" ==>
                        r.value.settings[k] == t.settings[k]
    ensures r.Ok? ==> r.value.(settings := t.settings) == t
  {
    var (procArg, split) := if IsSplit(val) then (NoProc, val.item.value) else (val, validationSplit);
    if !split.JFloat? then Err(TypeError("validation_split must have type float"))
    else if !IntOrNone(nbValSamples) then Err(TypeError("nb_val_samples must have type int"))
    else
      var procs :- PrepProcedure(procArg, "val");
      Ok(t.(settings := t.settings["validation_split" := split]
                                  ["val_procedure" := ProcSetting(procs)]
                                  ["nb_val_samples" := nbValSamples]))
  }

  /** A float passed as `val_procedure` is the same call as passing it as
      `validation_split` with no validation procedure. */
  lemma FloatValidationIsSplit(t: Trial, f: real, split: Json, nbValSamples: Json)
    ensures SetValidation(t, Single(ProcOther(JFloat(f))), split, nbValSamples)
            == SetValidation(t, NoProc, JFloat(f), nbValSamples)
  {
  }

  /** Strings as JSON strings. */
  function StrList(ss: seq<string>): (r: seq<Json>)
    ensures |r| == |ss|
    ensures forall i :: 0 <= i < |ss| ==> r[i] == JStr(ss[i])
  {
    seq(|ss|, i requires 0 <= i < |ss| => JStr(ss[i]))
  }

  /** The settings `setCompilation`, `setFit` and `setFit_Generator` hold. */
  const CompilationKeys: set<string> := {"optimizer", "loss", "metrics", "sample_weight_mode"}
  const FitArgKeys: set<string> := {"batch_size", "nb_epoch", "callbacks", "shuffle", "class_weight", "sample_weight"}
  const GeneratorKeys: set<string> := {"nb_epoch", "callbacks", "class_weight", "max_q_size", "nb_worker", "pickle_safe"}

  /** The compilation settings are set by neither fit setter, and the
      settings only `setFit` holds are not set by `setFit_Generator`. */
  lemma FitSetterKeysApart()
    ensures forall k :: k in CompilationKeys ==> k !in FitArgKeys && k !in GeneratorKeys
    ensures "batch_size" !in GeneratorKeys && "shuffle" !in GeneratorKeys && "sample_weight" !in GeneratorKeys
    ensures CompilationKeys + FitArgKeys + GeneratorKeys == FitKeys
  {
  }

  /** `setCompilation`: the metrics are stored sorted. */
  function SetCompilation(t: Trial, optimizer: Json, loss: Json, metrics: seq<string>,
                          sampleWeightMode: Json): (r: Trial)
    ensures r.settings.Keys == t.settings.Keys + CompilationKeys
    ensures r.settings["optimizer"] == optimizer && r.settings["loss"] == loss
    ensures r.settings["metrics"] == JList(StrList(Sort(metrics)))
    ensures r.settings["sample_weight_mode"] == sampleWeightMode
    ensures forall k :: k in t.settings && k !in CompilationKeys ==>
              r.settings[k] == t.settings[k]
    ensures r.(settings := t.settings) == t
  {
    t.(settings := t.settings["optimizer" := optimizer]["loss" := loss]
                             ["metrics" := JList(StrList(Sort(metrics)))]
                             ["sample_weight_mode" := sampleWeightMode])
  }

  /** The point of sorting the metrics: the stored setting, hence the
      trial's description and hash, does not depend on the order in which
      the metric names were given; it lists them in string order. */
  lemma CompilationSortsMetrics(t: Trial, optimizer: Json, loss: Json, m1: seq<string>,
                                m2: seq<string>, sampleWeightMode: Json)
    requires multiset(m1) == multiset(m2)
    ensures SetCompilation(t, optimizer, loss, m1, sampleWeightMode)
            == SetCompilation(t, optimizer, loss, m2, sampleWeightMode)
    ensures var stored := SetCompilation(t, optimizer, loss, m1, sampleWeightMode).settings["metrics"];
            && stored.JList? && |stored.items| == |m1|
            && forall i, j :: 0 <= i < j < |m1| ==>
                 stored.items[i].JStr? && stored.items[j].JStr? &&
                 Le(stored.items[i].s, stored.items[j].s)
  {
    SortForgetsOrder(m1, m2);
  }

  /** `setFit`: SmartCheckpoints dropped, Keras callbacks encoded. */
  function SetFit(t: Trial, batchSize: Json, nbEpoch: Json, callbacks: seq<Callback>,
                  shuffle: Json, classWeight: Json, sampleWeight: Json): (r: Trial)
    ensures r.settings.Keys == t.settings.Keys + FitArgKeys
    ensures r.settings["batch_size"] == batchSize && r.settings["nb_epoch"] == nbEpoch
    ensures r.settings["callbacks"] == JList(FilterCallbacks(callbacks))
    ensures r.settings["shuffle"] == shuffle && r.settings["class_weight"] == classWeight
    ensures r.settings["sample_weight"] == sampleWeight
    ensures forall k :: k in t.settings && k !in FitArgKeys ==>
              r.settings[k] == t.settings[k]
    ensures r.(settings := t.settings) == t
  {
    t.(settings := t.settings["batch_size" := batchSize]["nb_epoch" := nbEpoch]
                             ["callbacks" := JList(FilterCallbacks(callbacks))]
                             ["shuffle" := shuffle]["class_weight" := classWeight]
                             ["sample_weight" := sampleWeight])
  }

  /** `setFit_Generator`: the same callback filtering. */
  function SetFitGenerator(t: Trial, nbEpoch: Json, callbacks: seq<Callback>, classWeight: Json,
                           maxQSize: Json, nbWorker: Json, pickleSafe: Json): (r: Trial)
    ensures r.settings.Keys == t.settings.Keys + GeneratorKeys
    ensures r.settings["nb_epoch"] == nbEpoch && r.settings["class_weight"] == classWeight
    ensures r.settings["callbacks"] == JList(FilterCallbacks(callbacks))
    ensures r.settings["max_q_size"] == maxQSize && r.settings["nb_worker"] == nbWorker
    ensures r.settings["pickle_safe"] == pickleSafe
    ensures forall k :: k in t.settings && k !in GeneratorKeys ==>
              r.settings[k] == t.settings[k]
    ensures r.(settings := t.settings) == t
  {
    t.(settings := t.settings["nb_epoch" := nbEpoch]
                             ["callbacks" := JList(FilterCallbacks(callbacks))]
                             ["class_weight" := classWeight]["max_q_size" := maxQSize]
                             ["nb_worker" := nbWorker]["pickle_safe" := pickleSafe])
  }

  /** The constructor's arguments after `archive_dir` and `name`. */
  datatype TrialArgs = TrialArgs(
    model: ModelArg,
    trainProcedure: ProcArg,
    samplesPerEpoch: Json,
    validationSplit: Json,
    valProcedure: ProcArg,
    nbValSamples: Json,
    optimizer: Json,
    loss: Json,
    metrics: seq<string>,
    sampleWeightMode: Json,
    batchSize: Json,
    nbEpoch: Json,
    callbacks: seq<Callback>,
    maxQSize: Json,
    nbWorker: Json,
    pickleSafe: Json,
    shuffle: Json,
    classWeight: Json,
    sampleWeight: Json)

  /** The constructor's defaults. */
  const DefaultArgs: TrialArgs := TrialArgs(
    ModelValue(JNull), NoProc, JNull, JFloat(0.0), NoProc, JNull,
    JNull, JNull, [], JNull, JInt(32), JInt(10), [],
    JNull, JNull, JBool(false), JBool(true), JNull, JNull)

  /** The settings the model, training and validation setters hold. */
  const DataKeys: set<string> := {
    "model", "train_procedure", "samples_per_epoch", "validation_split", "val_procedure",
    "nb_val_samples"}

  /** The settings the compilation and fit setters hold. */
  const FitKeys: set<string> := {
    "optimizer", "loss", "metrics", "sample_weight_mode", "batch_size", "nb_epoch",
    "callbacks", "shuffle", "class_weight", "sample_weight", "max_q_size",
    "nb_worker", "pickle_safe"}

  lemma SettingKeysSplit()
    ensures DataKeys + FitKeys == SettingKeys
  {
  }

  /** The first half of the constructor: `setModel`, `setTrain` and
      `setValidation` on a trial with no settings yet. */
  function DataSettings(dir: string, name: string, a: TrialArgs): (r: Result<Trial>)
    ensures r.Ok? <==> PrepProcedure(a.trainProcedure, "train").Ok?
                       && SetValidation(Trial("", "", None, None, map[]), a.valProcedure,
                                        a.validationSplit, a.nbValSamples).Ok?
    ensures r.Ok? ==> r.value.settings.Keys == DataKeys
    ensures r.Ok? ==> r.value.archiveDir == dir && r.value.name == name
    ensures r.Ok? ==> r.value.hashcode.None? && r.value.compiledModel.None?
  {
    var t1 := SetModel(Trial(dir, name, None, None, map[]), a.model);
    assert t1.settings.Keys == {"model"};
    var t2 :- SetTrain(t1, a.trainProcedure, a.samplesPerEpoch);
    SetValidation(t2, a.valProcedure, a.validationSplit, a.nbValSamples)
  }

  /** `setFit` then `setFit_Generator`, with the constructor's arguments:
      the generator setter rewrites `nb_epoch`, `callbacks` and
      `class_weight` with the same values. */
  function FitArgs(t: Trial, a: TrialArgs): (r: Trial)
    ensures r.settings.Keys == t.settings.Keys + FitArgKeys + GeneratorKeys
    ensures r.settings["batch_size"] == a.batchSize && r.settings["nb_epoch"] == a.nbEpoch
    ensures r.settings["callbacks"] == JList(FilterCallbacks(a.callbacks))
    ensures r.settings["shuffle"] == a.shuffle && r.settings["class_weight"] == a.classWeight
    ensures r.settings["sample_weight"] == a.sampleWeight
    ensures r.settings["max_q_size"] == a.maxQSize && r.settings["nb_worker"] == a.nbWorker
    ensures r.settings["pickle_safe"] == a.pickleSafe
    ensures forall k :: k in t.settings && k !in FitArgKeys && k !in GeneratorKeys ==> r.settings[k] == t.settings[k]
    ensures r.(settings := t.settings) == t
  {
    var t5 := SetFit(t, a.batchSize, a.nbEpoch, a.callbacks, a.shuffle, a.classWeight, a.sampleWeight);
    FitSetterKeysApart();
    SetFitGenerator(t5, a.nbEpoch, a.callbacks, a.classWeight, a.maxQSize, a.nbWorker, a.pickleSafe)
  }

  /** The second half: `setCompilation`, `setFit` and `setFit_Generator`,
      which cannot fail; FitSettingsValues states what they store. */
  function FitSettings(t: Trial, a: TrialArgs): (r: Trial)
    ensures r.settings.Keys == t.settings.Keys + FitKeys
    ensures r.(settings := t.settings) == t
  {
    var t4 := SetCompilation(t, a.optimizer, a.loss, a.metrics, a.sampleWeightMode);
    FitSetterKeysApart();
    FitArgs(t4, a)
  }

  /** Every compilation and fit setting takes the value its constructor
      argument gives, and every other setting keeps its value. */
  lemma FitSettingsValues(t: Trial, a: TrialArgs)
    ensures var r := FitSettings(t, a).settings;
            && r["optimizer"] == a.optimizer && r["loss"] == a.loss
            && r["metrics"] == JList(StrList(Sort(a.metrics)))
            && r["sample_weight_mode"] == a.sampleWeightMode
            && r["batch_size"] == a.batchSize && r["nb_epoch"] == a.nbEpoch
            && r["callbacks"] == JList(FilterCallbacks(a.callbacks))
            && r["shuffle"] == a.shuffle && r["class_weight"] == a.classWeight
            && r["sample_weight"] == a.sampleWeight
            && r["max_q_size"] == a.maxQSize && r["nb_worker"] == a.nbWorker
            && r["pickle_safe"] == a.pickleSafe
            && forall k :: k in t.settings && k !in FitKeys ==> r[k] == t.settings[k]
  {
    var t4 := SetCompilation(t, a.optimizer, a.loss, a.metrics, a.sampleWeightMode);
    FitSetterKeysApart();
    assert FitSettings(t, a) == FitArgs(t4, a);
  }




  /** `KerasTrial(archive_dir, name, ...)`: normalise the directory, then
      run the setters in the constructor's order. */
  function NewTrial(archiveDir: string, name: string, a: TrialArgs): (r: Result<Trial>)
    ensures r.Ok? <==> |archiveDir| > 0 && PrepProcedure(a.trainProcedure, "train").Ok?
                       && SetValidation(Trial("", "", None, None, map[]), a.valProcedure,
                                        a.validationSplit, a.nbValSamples).Ok?
    ensures r.Ok? ==> r.value.hashcode.None? && r.value.compiledModel.None? && r.value.name == name
    ensures r.Ok? ==> NormalizeDir(archiveDir) == Ok(r.value.archiveDir)
  {
    var dir :- NormalizeDir(archiveDir);
    var t3 :- DataSettings(dir, name, a);
    Ok(FitSettings(t3, a))
  }

  /** A constructed trial holds a value for every one of its settings. */
  lemma NewTrialKeys(archiveDir: string, name: string, a: TrialArgs)
    requires NewTrial(archiveDir, name, a).Ok?
    ensures NewTrial(archiveDir, name, a).value.settings.Keys == SettingKeys
  {
    var t3 := DataSettings(NormalizeDir(archiveDir).value, name, a).value;
    assert NewTrial(archiveDir, name, a).value == FitSettings(t3, a);
    SettingKeysSplit();
  }

  /** The settings a trial is built with do not depend on where it is
      archived or what it is called: the same arguments give the same hash
      anywhere, under any name. */
  lemma NewTrialIdentity(dir1: string, name1: string, dir2: string, name2: string, a: TrialArgs)
    requires NewTrial(dir1, name1, a).Ok? && NewTrial(dir2, name2, a).Ok?
    ensures ToJson(NewTrial(dir1, name1, a).value) == ToJson(NewTrial(dir2, name2, a).value)
  {
  }

  /** A trial with default settings needs only a non-empty directory. */
  lemma DefaultTrial(dir: string, name: string)
    requires |dir| > 0
    ensures NewTrial(dir, name, DefaultArgs).Ok?
  {
    var a := DefaultArgs;
    assert a.trainProcedure == NoProc && a.valProcedure == NoProc;
    assert a.validationSplit == JFloat(0.0) && a.nbValSamples == JNull;
    assert SetValidation(Trial("", "", None, None, map[]), NoProc, JFloat(0.0), JNull).Ok?;
  }

  // ---------------------------------------------------------------------
  // Ledger
  // ---------------------------------------------------------------------

  /** `to_record(dct, append, replace)`: merge `dct` into the entry of the
      cached hash in `trial_record.json`. */
  function ToRecord(fs: FileSystem, t: Trial, dct: Entry, append: bool, replace: bool, sha: Hasher)
    : (r: Result<(FileSystem, Trial)>)
    ensures r.Ok? ==> r.value.1 == Hash(t, sha).1
    ensures ReadRecord(fs, t.archiveDir, TrialRecordFile).Err? ==> r.Err?
    ensures r.Ok? ==> forall p :: p != t.archiveDir + TrialRecordFile ==> (p in r.value.0.files <==> p in fs.files)
    ensures r.Ok? ==> forall p :: p != t.archiveDir + TrialRecordFile && p in fs.files ==> r.value.0.files[p] == fs.files[p]
  {
    var record :- ReadRecord(fs, t.archiveDir, TrialRecordFile);
    var (h, t1) := Hash(t, sha);
    var updated :- Upsert(record, h, dct, append, replace);
    Ok((WriteRecord(fs, updated, t.archiveDir, TrialRecordFile), t1))
  }

  /** `to_record` writes back the merged ledger: the entry of this trial
      merged with `dct`, every other entry as it was; it fails only on an
      unreadable ledger or an unhashable value in set mode. */
  lemma ToRecordStores(fs: FileSystem, t: Trial, dct: Entry, append: bool, replace: bool, sha: Hasher)
    requires ReadRecord(fs, t.archiveDir, TrialRecordFile).Ok?
    ensures var record := ReadRecord(fs, t.archiveDir, TrialRecordFile).value;
            var h := Hash(t, sha).0;
            var entry := if h in record then record[h] else map[];
            && (ToRecord(fs, t, dct, append, replace, sha).Ok? <==> Mergeable(entry, dct, append, replace))
            && (ToRecord(fs, t, dct, append, replace, sha).Ok? ==>
                  var fs' := ToRecord(fs, t, dct, append, replace, sha).value.0;
                  ReadRecord(fs', t.archiveDir, TrialRecordFile)
                  == Ok(record[h := MergeEntry(entry, dct, append, replace).value]))
  {
    var record := ReadRecord(fs, t.archiveDir, TrialRecordFile).value;
    var h := Hash(t, sha).0;
    var r := Upsert(record, h, dct, append, replace);
    if r.Ok? {
      RecordRoundTrip(fs, r.value, t.archiveDir, TrialRecordFile);
      assert r.value == record[h := r.value[h]];
    }
  }

  /** `get_record_entry()`: the entry of the cached hash, if any. */
  function GetRecordEntry(fs: FileSystem, t: Trial, sha: Hasher): (r: Result<(Option<Entry>, Trial)>)
    ensures r.Ok? <==> ReadRecord(fs, t.archiveDir, TrialRecordFile).Ok?
    ensures r.Ok? ==> r.value.1 == Hash(t, sha).1
    ensures r.Ok? ==> (r.value.0.Some? <==> Hash(t, sha).0 in ReadRecord(fs, t.archiveDir, TrialRecordFile).value)
  {
    var record :- ReadRecord(fs, t.archiveDir, TrialRecordFile);
    var (h, t1) := Hash(t, sha);
    Ok((if h in record then Some(record[h]) else None, t1))
  }

  /** What `to_record` wrote, `get_record_entry` reads. */
  lemma RecordThenEntry(fs: FileSystem, t: Trial, dct: Entry, append: bool, replace: bool, sha: Hasher)
    requires ToRecord(fs, t, dct, append, replace, sha).Ok?
    ensures var w := ToRecord(fs, t, dct, append, replace, sha).value;
            var record := ReadRecord(fs, t.archiveDir, TrialRecordFile).value;
            var h := Hash(t, sha).0;
            GetRecordEntry(w.0, w.1, sha)
            == Ok((Some(MergeEntry(if h in record then record[h] else map[], dct, append, replace).value), w.1))
  {
    ToRecordStores(fs, t, dct, append, replace, sha);
  }

  /** The `keys` argument of `get_from_record`: a list or a single key. */
  datatype Keys = KeyList(keys: seq<string>) | OneKey(key: string)

  /** `get_from_record(keys)`: `None` for a missing key; a trial without an
      entry fails on `None.get` as soon as one key is looked up, so an empty
      key list gives `[]` even then. */
  function GetFromRecord(fs: FileSystem, t: Trial, keys: Keys, sha: Hasher): (r: Result<(Json, Trial)>)
    ensures var e := GetRecordEntry(fs, t, sha);
            r.Ok? <==> e.Ok? && (e.value.0.Some? || keys == KeyList([]))
    ensures r.Ok? ==> r.value.1 == Hash(t, sha).1
    ensures r.Ok? && keys == KeyList([]) ==> r.value.0 == JList([])
    ensures r.Ok? && keys.KeyList? && keys.keys != [] ==>
              && r.value.0.JList? && |r.value.0.items| == |keys.keys|
              && forall i :: 0 <= i < |keys.keys| ==>
                   r.value.0.items[i] == Get(GetRecordEntry(fs, t, sha).value.0.value, keys.keys[i], JNull)
    ensures r.Ok? && keys.OneKey? ==>
              r.value.0 == Get(GetRecordEntry(fs, t, sha).value.0.value, keys.key, JNull)
  {
    var got :- GetRecordEntry(fs, t, sha);
    match keys
    case KeyList(ks) =>
      if ks == [] then Ok((JList([]), got.1))
      else if got.0.None? then Err(AttributeError("get"))
      else
        var entry := got.0.value;
        Ok((JList(seq(|ks|, i requires 0 <= i < |ks| => Get(entry, ks[i], JNull))), got.1))
    case OneKey(k) =>
      if got.0.None? then Err(AttributeError("get"))
      else Ok((Get(got.0.value, k, JNull), got.1))
  }

  /** After `to_record(dct)` in replace mode, every key of `dct` reads back
      as its new value. */
  lemma RecordThenGet(fs: FileSystem, t: Trial, dct: Entry, k: string, sha: Hasher)
    requires ReadRecord(fs, t.archiveDir, TrialRecordFile).Ok?
    requires k in dct
    ensures ToRecord(fs, t, dct, false, true, sha).Ok?
    ensures var w := ToRecord(fs, t, dct, false, true, sha).value;
            GetFromRecord(w.0, w.1, OneKey(k), sha) == Ok((dct[k], w.1))
  {
    var record := ReadRecord(fs, t.archiveDir, TrialRecordFile).value;
    var h := Hash(t, sha).0;
    var entry := if h in record then record[h] else map[];
    MergeReplaceOverwrites(entry, dct);
    ToRecordStores(fs, t, dct, false, true, sha);
    RecordThenEntry(fs, t, dct, false, true, sha);
  }

  // ---------------------------------------------------------------------
  // Completion and execution
  // ---------------------------------------------------------------------

  /** `len(v) > 0`, for the values `len` accepts. The text of an encoded
      document is never empty. */
  function NonEmpty(v: Json): (r: Result<bool>)
    ensures r.Err? <==> !(v.JList? || v.JStr? || v.JObj? || v.JDoc?)
    ensures v.JList? ==> r == Ok(|v.items| > 0)
  {
    match v
    case JList(items) => Ok(|items| > 0)
    case JStr(s) => Ok(|s| > 0)
    case JObj(fields) => Ok(|fields| > 0)
    case JDoc(_) => Ok(true)
    case _ => Err(TypeError("object has no len()"))
  }

  /** `is_complete()`: `history.json` in the blob of the cached hash exists
      and its `stops` list is not empty. */
  function IsComplete(fs: FileSystem, t: Trial, sha: Hasher): (r: Result<(bool, Trial)>)
    ensures r.Ok? ==> r.value.1 == Hash(t, sha).1
    ensures var path := Layout(t.archiveDir, Hash(t, sha).0) + HistoryFile;
            && (!Exists(fs, path) ==> r == Ok((false, Hash(t, sha).1)))
            && (r.Ok? && r.value.0 <==>
                  && path in fs.files && fs.files[path].Doc? && fs.files[path].json.JObj?
                  && "stops" in fs.files[path].json.fields
                  && NonEmpty(fs.files[path].json.fields["stops"]) == Ok(true))
  {
    var (h, t1) := Hash(t, sha);
    var path := Layout(t.archiveDir, h) + HistoryFile;
    if !Exists(fs, path) then Ok((false, t1))
    else if path !in fs.files then Err(IOError(path))
    else match fs.files[path]
      case Doc(j) =>
        if !j.JObj? then Err(AttributeError("get"))
        else
          var nonEmpty :- NonEmpty(Get(j.fields, "stops", JList([])));
          Ok((nonEmpty, t1))
      case _ => Err(ValueError("No JSON object could be decoded"))
  }

  /** The field `write()` records: the trial's name. */
  function NameField(t: Trial): Entry {
    map["name" := JStr(t.name)]
  }

  /** The name can be added to the entry of `h` as to a set: the names
      already there, if any, are hashable. */
  predicate NameAddable(record: Record, h: string) {
    h !in record || "name" !in record[h] || forall x :: x in AsList(record[h]["name"]) ==> Hashable(x)
  }

  /** `trial.json` and the ledger are different files: writing the
      description leaves the ledger as it was, and writing the ledger
      leaves the description. */
  lemma DescriptionApartFromLedger(fs: FileSystem, t: Trial, sha: Hasher)
    ensures Path(t, sha) + TrialFile != t.archiveDir + TrialRecordFile
    ensures ReadRecord(WriteObject(fs, Path(t, sha), TrialFile, Doc(ToJson(t))), t.archiveDir, TrialRecordFile)
            == ReadRecord(fs, t.archiveDir, TrialRecordFile)
  {
    var h := sha(ToJson(t));
    RecordOutsideBlobs(t.archiveDir, h, TrialRecordFile);
    assert Path(t, sha) == Layout(t.archiveDir, h);
    assert Below(Layout(t.archiveDir, h), Path(t, sha) + TrialFile);
  }

  /** The set-mode merge of the name succeeds exactly when the names
      already recorded are hashable, and the name is then among them. */
  lemma NameMerge(record: Record, h: string, t: Trial)
    ensures var entry := if h in record then record[h] else map[];
            && (Mergeable(entry, NameField(t), true, true) <==> NameAddable(record, h))
            && (Mergeable(entry, NameField(t), true, true) ==>
                  && "name" in MergeEntry(entry, NameField(t), true, true).value
                  && JStr(t.name) in AsList(MergeEntry(entry, NameField(t), true, true).value["name"]))
  {
    var entry := if h in record then record[h] else map[];
    var dct := NameField(t);
    assert Mergeable(entry, dct, true, true) <==> MergedValue(Lookup(entry, "name"), dct["name"], true, true).Ok?;
    if Mergeable(entry, dct, true, true) {
      if "name" in entry {
        MergeAppendAsSet(entry, dct, "name");
      }
    }
  }

  /** `write()`: the description as `trial.json` in the blob of a fresh
      hash, then the name added to the ledger entry in set mode. The
      description is written first and stays when the ledger update fails;
      the update fails exactly when the ledger cannot be read or holds
      unhashable names for this trial. */
  function Write(fs: FileSystem, t: Trial, sha: Hasher): (r: Outcome<Trial>)
    ensures var record := ReadRecord(fs, t.archiveDir, TrialRecordFile);
            r.result.Ok? <==> record.Ok? && NameAddable(record.value, Hash(t, sha).0)
    ensures r.result.Ok? ==> r.result.value == Hash(t, sha).1
    ensures Path(t, sha) + TrialFile in r.fs.files
    ensures r.fs.files[Path(t, sha) + TrialFile] == Doc(ToJson(t))
    ensures forall p :: p != Path(t, sha) + TrialFile && p != t.archiveDir + TrialRecordFile ==>
              (p in r.fs.files <==> p in fs.files)
    ensures r.result.Ok? ==>
              var record := ReadRecord(r.fs, t.archiveDir, TrialRecordFile);
              var h := Hash(t, sha).0;
              && record.Ok? && h in record.value && "name" in record.value[h]
              && JStr(t.name) in AsList(record.value[h]["name"])
  {
    var fs1 := WriteObject(fs, Path(t, sha), TrialFile, Doc(ToJson(t)));
    DescriptionApartFromLedger(fs, t, sha);
    match ToRecord(fs1, t, NameField(t), true, true, sha)
    case Err(e) => Outcome(fs1, Err(e))
    case Ok(w) =>
      ToRecordStores(fs1, t, NameField(t), true, true, sha);
      NameMerge(ReadRecord(fs1, t.archiveDir, TrialRecordFile).value, Hash(t, sha).0, t);
      Outcome(w.0, Ok(w.1))
  }

  /** The training `execute` runs once the guard lets it through: compiling,
      getting the data of every procedure and fitting, which yields the
      filesystem afterwards and the statistics to record, or the exception
      that stopped it. Keras is not part of this model. */
  type Training = FileSystem -> Outcome<Entry>

  /** Python 2's message for subscripting `None`. */
  const NoneSubscriptMessage: string := "'NoneType' object has no attribute '__getitem__'"

  /** `self.get_history()['elapse_time']`: `get_history` reads `history.json`
      from the `get_path()` blob and turns `{}` (which a missing file also
      reads as) into `None`, which cannot be subscripted. */
  function ElapseTime(fs: FileSystem, t: Trial, sha: Hasher): (r: Result<Json>)
    ensures var path := Path(t, sha) + HistoryFile;
            && (path !in fs.files ==> r == Err(TypeError(NoneSubscriptMessage)))
            && (r.Ok? <==> path in fs.files && fs.files[path].Doc? && fs.files[path].json.JObj?
                           && "elapse_time" in fs.files[path].json.fields)
            && (r.Ok? ==> r.value == fs.files[path].json.fields["elapse_time"])
            && (path in fs.files && fs.files[path] == Doc(JObj(map[])) ==>
                  r == Err(TypeError(NoneSubscriptMessage)))
            && (path in fs.files && fs.files[path].Doc? && fs.files[path].json.JObj?
                && fs.files[path].json.fields != map[] && "elapse_time" !in fs.files[path].json.fields ==>
                  r == Err(KeyError("elapse_time")))
  {
    var history :- ReadJsonObj(fs, Path(t, sha), HistoryFile);
    match history
    case JObj(fields) =>
      if fields == map[] then Err(TypeError(NoneSubscriptMessage))
      else if "elapse_time" !in fields then Err(KeyError("elapse_time"))
      else Ok(fields["elapse_time"])
    case _ => Err(TypeError("indices must be integers"))
  }

  /** `execute()`: a trial without a training procedure is an error; a
      complete one is left alone; otherwise train, `write()`, read the
      elapsed time from `history.json`, and record the statistics in replace
      mode. What was written before an exception stays written; only an
      incomplete trial writes anything. */
  function Execute(fs: FileSystem, t: Trial, sha: Hasher, train: Training): (r: Outcome<Trial>)
    ensures Get(t.settings, "train_procedure", JNull) == JNull ==>
              r == Outcome(fs, Err(ValueError("Cannot execute trial without DataProcedure")))
    ensures r.fs != fs ==> IsComplete(fs, t, sha) == Ok((false, Hash(t, sha).1))
  {
    if Get(t.settings, "train_procedure", JNull) == JNull then
      Outcome(fs, Err(ValueError("Cannot execute trial without DataProcedure")))
    else match IsComplete(fs, t, sha)
      case Err(e) => Outcome(fs, Err(e))
      case Ok(done) =>
        if done.0 then Outcome(fs, Ok(done.1))
        else
          var trained := train(fs);
          match trained.result
          case Err(e) => Outcome(trained.fs, Err(e))
          case Ok(stats) =>
            var written := Write(trained.fs, done.1, sha);
            match written.result
            case Err(e) => Outcome(written.fs, Err(e))
            case Ok(t2) =>
              match ElapseTime(written.fs, t2, sha)
              case Err(e) => Outcome(written.fs, Err(e))
              case Ok(elapsed) =>
                match ToRecord(written.fs, t2, stats["elapse_time" := elapsed], false, true, sha)
                case Err(e) => Outcome(written.fs, Err(e))
                case Ok(w) => Outcome(w.0, Ok(w.1))
  }

  /** A complete trial is not trained again: whatever the training would
      do, `execute` changes nothing but the cached hash. */
  lemma ExecuteCompleteIsNoop(fs: FileSystem, t: Trial, sha: Hasher, train: Training)
    requires Get(t.settings, "train_procedure", JNull) != JNull
    requires IsComplete(fs, t, sha) == Ok((true, Hash(t, sha).1))
    ensures Execute(fs, t, sha, train) == Outcome(fs, Ok(Hash(t, sha).1))
  {
  }

  /** An incomplete trial is trained, and the statistics of the training,
      with the elapsed time from `history.json`, end up in its ledger entry. */
  lemma ExecuteRecordsStatistics(fs: FileSystem, t: Trial, sha: Hasher, train: Training, k: string)
    requires Get(t.settings, "train_procedure", JNull) != JNull
    requires IsComplete(fs, t, sha) == Ok((false, Hash(t, sha).1))
    requires train(fs).result.Ok? && (k in train(fs).result.value || k == "elapse_time")
    requires Write(train(fs).fs, Hash(t, sha).1, sha).result.Ok?
    requires ElapseTime(Write(train(fs).fs, Hash(t, sha).1, sha).fs, t, sha).Ok?
    ensures Execute(fs, t, sha, train).result.Ok?
    ensures var r := Execute(fs, t, sha, train);
            var elapsed := ElapseTime(Write(train(fs).fs, Hash(t, sha).1, sha).fs, t, sha).value;
            GetFromRecord(r.fs, r.result.value, OneKey(k), sha)
              == Ok((train(fs).result.value["elapse_time" := elapsed][k], r.result.value))
  {
    var w := Write(train(fs).fs, Hash(t, sha).1, sha);
    var t2 := w.result.value;
    assert Path(t2, sha) == Path(t, sha);
    var stats := train(fs).result.value["elapse_time" := ElapseTime(w.fs, t, sha).value];
    assert ReadRecord(w.fs, t2.archiveDir, TrialRecordFile).Ok?;
    RecordThenGet(w.fs, t2, stats, k, sha);
  }

  /** A training that leaves no `history.json` fails `execute` with a
      TypeError, but only after `write()`: the trial's description and its
      name in the ledger stay on disk. */
  lemma ExecuteWithoutHistoryFails(fs: FileSystem, t: Trial, sha: Hasher, train: Training)
    requires Get(t.settings, "train_procedure", JNull) != JNull
    requires IsComplete(fs, t, sha) == Ok((false, Hash(t, sha).1))
    requires train(fs).result.Ok?
    requires Path(t, sha) + HistoryFile !in train(fs).fs.files
    requires Write(train(fs).fs, Hash(t, sha).1, sha).result.Ok?
    ensures Execute(fs, t, sha, train) == Outcome(Write(train(fs).fs, Hash(t, sha).1, sha).fs,
                                                 Err(TypeError(NoneSubscriptMessage)))
  {
    var t1 := Hash(t, sha).1;
    var w := Write(train(fs).fs, t1, sha);
    assert Path(t1, sha) == Path(t, sha) && t1.archiveDir == t.archiveDir;
    DistinctNamesDistinctPaths(Path(t, sha), HistoryFile, TrialFile);
    HistoryOutsideLedger(t, sha);
    assert Path(w.result.value, sha) == Path(t, sha);
  }

  /** `history.json` in the blob is not the ledger file. */
  lemma HistoryOutsideLedger(t: Trial, sha: Hasher)
    ensures Path(t, sha) + HistoryFile != t.archiveDir + TrialRecordFile
  {
    var h := sha(ToJson(t));
    RecordOutsideBlobs(t.archiveDir, h, TrialRecordFile);
    assert Path(t, sha) == Layout(t.archiveDir, h);
    assert Below(Layout(t.archiveDir, h), Path(t, sha) + HistoryFile);
  }

  /** Once the training has run, the description is on disk even when
      recording the statistics then fails. */
  lemma ExecuteKeepsDescription(fs: FileSystem, t: Trial, sha: Hasher, train: Training)
    requires Get(t.settings, "train_procedure", JNull) != JNull
    requires IsComplete(fs, t, sha) == Ok((false, Hash(t, sha).1))
    requires train(fs).result.Ok?
    ensures Path(t, sha) + TrialFile in Execute(fs, t, sha, train).fs.files
    ensures Execute(fs, t, sha, train).fs.files[Path(t, sha) + TrialFile] == Doc(ToJson(t))
  {
    var t1 := Hash(t, sha).1;
    var w := Write(train(fs).fs, t1, sha);
    var file := Path(t, sha) + TrialFile;
    assert Path(t1, sha) == Path(t, sha) && ToJson(t1) == ToJson(t);
    DescriptionApartFromLedger(w.fs, t, sha);
    assert file in w.fs.files && w.fs.files[file] == Doc(ToJson(t));
    if w.result.Ok? && ElapseTime(w.fs, w.result.value, sha).Ok? {
      var t2 := w.result.value;
      var stats := train(fs).result.value["elapse_time" := ElapseTime(w.fs, t2, sha).value];
      var rec := ToRecord(w.fs, t2, stats, false, true, sha);
      assert t2.archiveDir == t.archiveDir;
      if rec.Ok? {
        assert Execute(fs, t, sha, train).fs == rec.value.0;
      } else {
        assert Execute(fs, t, sha, train).fs == w.fs;
      }
    } else {
      assert Execute(fs, t, sha, train).fs == w.fs;
    }
  }

  /** `KerasTrial.remove_from_archive()`, on `trial_record.json`. */
  function RemoveFromArchive(fs: FileSystem, t: Trial, sha: Hasher): (r: Result<(FileSystem, Trial)>)
    ensures r.Ok? <==> ReadRecord(fs, t.archiveDir, TrialRecordFile).Ok?
    ensures r.Ok? ==> r.value.1 == Hash(t, sha).1
  {
    var removed :- Storable.RemoveFromArchive(fs, t.archiveDir, TrialRecordFile, t.hashcode, ToJson(t), sha);
    Ok((removed.0, t.(hashcode := removed.1)))
  }

  /** After removal the trial is no longer complete and its ledger entry is
      gone; nothing inside its blob remains. */
  lemma RemoveForgetsTrial(fs: FileSystem, t: Trial, sha: Hasher)
    requires WellFormed(fs)
    requires HashConsistent(t, sha)
    requires ReadRecord(fs, t.archiveDir, TrialRecordFile).Ok?
    ensures var r := RemoveFromArchive(fs, t, sha);
            && r.Ok?
            && (forall q :: Below(Path(t, sha), q) && q != Path(t, sha) ==> !Exists(r.value.0, q))
            && IsComplete(r.value.0, r.value.1, sha) == Ok((false, r.value.1))
            && GetRecordEntry(r.value.0, r.value.1, sha) == Ok((None, r.value.1))
  {
    Storable.RemoveForgets(fs, t.archiveDir, TrialRecordFile, t.hashcode, ToJson(t), sha);
    var blob := Path(t, sha);
    assert blob == Layout(t.archiveDir, Hash(t, sha).0);
    assert Below(blob, blob + HistoryFile);
  }
}
