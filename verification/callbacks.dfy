/** How a trial stores its Keras callbacks: `encodeCallback`,
    `decodeCallback`, and the filtering loop of `setFit`/`setFit_Generator`. */
module Callbacks {
  import opened Results
  import opened Json

  /** A value in the `callbacks` list given to a trial. */
  datatype Callback =
    | SmartCheckpoint
    | EarlyStopping(monitor: Json, patience: Json, verbose: Json, mode: Json)
    | OverfitStopping(monitor: Json, patience: Json, verbose: Json, mode: Json,
                      comparisonMonitor: Json, maxPercentDiff: Json)
    | OtherCallback                // any other Keras Callback
    | NotCallback(value: Json)     // anything else, e.g. an already encoded one

  predicate IsStopping(c: Callback) {
    c.EarlyStopping? || c.OverfitStopping?
  }

  /** `encodeCallback(c)`: the stopping parameters, with the mode always
      recorded as 'auto'; every other callback encodes to `{}`. */
  function EncodeCallback(c: Callback): (r: Json)
    ensures r.JObj?
    ensures !IsStopping(c) ==> r == JObj(map[])
    ensures IsStopping(c) ==>
              && "mode" in r.fields && r.fields["mode"] == JStr("auto")
              && "type" in r.fields
              && r.fields["type"] == JStr(if c.OverfitStopping? then "OverfitStopping" else "EarlyStopping")
  {
    match c
    case EarlyStopping(monitor, patience, verbose, _) =>
      JObj(map["monitor" := monitor, "patience" := patience, "verbose" := verbose,
               "mode" := JStr("auto"), "type" := JStr("EarlyStopping")])
    case OverfitStopping(monitor, patience, verbose, _, comparison, maxDiff) =>
      JObj(map["monitor" := monitor, "patience" := patience, "verbose" := verbose,
               "mode" := JStr("auto"), "type" := JStr("OverfitStopping"),
               "comparison_monitor" := comparison, "max_percent_diff" := maxDiff])
    case _ => JObj(map[])
  }

  /** `d[key]` on a decoded JSON value. */
  function Field(d: Json, key: string): (r: Result<Json>)
    ensures r.Ok? <==> d.JObj? && key in d.fields
    ensures r.Ok? ==> r.value == d.fields[key]
    ensures d.JObj? && key !in d.fields ==> r == Err(KeyError(key))
  {
    if !d.JObj? then Err(TypeError("indices must be integers"))
    else if key !in d.fields then Err(KeyError(key))
    else Ok(d.fields[key])
  }

  /** `decodeCallback(d)`: rebuild a stopping callback, reading the keys in
      the order the constructor call lists them; any other type decodes to
      `None`. */
  function DecodeCallback(d: Json): (r: Result<Option<Callback>>)
    ensures r.Ok? && r.value.Some? ==> IsStopping(r.value.value)
    ensures !d.JObj? ==> r.Err? && r.error.TypeError?
    ensures d.JObj? && "type" !in d.fields ==> r == Err(KeyError("type"))
    ensures d.JObj? && "type" in d.fields
            && d.fields["type"] != JStr("OverfitStopping") && d.fields["type"] != JStr("EarlyStopping")
            ==> r == Ok(None)
  {
    var kind :- Field(d, "type");
    if kind == JStr("OverfitStopping") then
      var monitor :- Field(d, "monitor");
      var comparison :- Field(d, "comparison_monitor");
      var maxDiff :- Field(d, "max_percent_diff");
      var patience :- Field(d, "patience");
      var verbose :- Field(d, "verbose");
      var mode :- Field(d, "mode");
      Ok(Some(OverfitStopping(monitor, patience, verbose, mode, comparison, maxDiff)))
    else if kind == JStr("EarlyStopping") then
      var monitor :- Field(d, "monitor");
      var patience :- Field(d, "patience");
      var verbose :- Field(d, "verbose");
      var mode :- Field(d, "mode");
      Ok(Some(EarlyStopping(monitor, patience, verbose, mode)))
    else Ok(None)
  }

  /** Decoding an encoded stopping callback gives it back, except that its
      mode has become 'auto'. */
  lemma CallbackRoundTrip(c: Callback)
    requires IsStopping(c)
    ensures DecodeCallback(EncodeCallback(c)) == Ok(Some(c.(mode := JStr("auto"))))
  {
  }

  /** The mode is the one thing lost: two stopping callbacks encode alike
      exactly when they agree on everything but the mode. */
  lemma EncodeForgetsOnlyMode(c: Callback, d: Callback)
    requires IsStopping(c) && IsStopping(d)
    ensures EncodeCallback(c) == EncodeCallback(d) <==> c.(mode := JStr("auto")) == d.(mode := JStr("auto"))
  {
    if EncodeCallback(c) == EncodeCallback(d) {
      CallbackRoundTrip(c);
      CallbackRoundTrip(d);
    }
  }

  /** Any other Keras callback is stored as `{}`, which `decodeCallback`
      rejects with a KeyError on 'type'. */
  lemma OtherCallbackDoesNotDecode()
    ensures DecodeCallback(EncodeCallback(OtherCallback)) == Err(KeyError("type"))
  {
  }

  /** The encoded form of one kept callback: Keras callbacks are encoded,
      other values kept as they are. */
  function StoreCallback(c: Callback): Json {
    if c.NotCallback? then c.value else EncodeCallback(c)
  }

  /** The loop of `setFit`: drop SmartCheckpoints, encode Keras callbacks,
      keep anything else. */
  function FilterCallbacks(cs: seq<Callback>): (r: seq<Json>)
    ensures |r| <= |cs|
    ensures (forall i :: 0 <= i < |cs| ==> !cs[i].SmartCheckpoint?) ==> |r| == |cs|
  {
    if |cs| == 0 then []
    else
      var rest := FilterCallbacks(cs[..|cs| - 1]);
      var c := cs[|cs| - 1];
      if c.SmartCheckpoint? then rest else rest + [StoreCallback(c)]
  }

  /** The callbacks `setFit` keeps, in order. */
  function Kept(cs: seq<Callback>): (r: seq<Callback>)
    ensures forall i :: 0 <= i < |r| ==> !r[i].SmartCheckpoint?
    ensures forall c :: c in r <==> c in cs && !c.SmartCheckpoint?
  {
    if |cs| == 0 then []
    else
      var rest := Kept(cs[..|cs| - 1]);
      var c := cs[|cs| - 1];
      assert cs == cs[..|cs| - 1] + [c];
      if c.SmartCheckpoint? then rest else rest + [c]
  }

  /** `setFit` stores exactly the kept callbacks, each in its stored form. */
  lemma {:induction false} FilterStoresKept(cs: seq<Callback>)
    ensures |FilterCallbacks(cs)| == |Kept(cs)|
    ensures forall i :: 0 <= i < |Kept(cs)| ==> FilterCallbacks(cs)[i] == StoreCallback(Kept(cs)[i])
  {
    if |cs| > 0 {
      FilterStoresKept(cs[..|cs| - 1]);
    }
  }

  /** `from_json` hands the stored list back to `setFit`, which keeps it as
      it is: storing is idempotent. */
  lemma {:induction false} RefilterKeepsStored(js: seq<Json>)
    ensures FilterCallbacks(seq(|js|, i requires 0 <= i < |js| => NotCallback(js[i]))) == js
  {
    var cs := seq(|js|, i requires 0 <= i < |js| => NotCallback(js[i]));
    if |js| > 0 {
      var init := js[..|js| - 1];
      RefilterKeepsStored(init);
      assert cs[..|cs| - 1] == seq(|init|, i requires 0 <= i < |init| => NotCallback(init[i]));
      assert js == init + [js[|js| - 1]];
    }
  }
}
