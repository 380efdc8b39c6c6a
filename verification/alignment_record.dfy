/** The alignment record of utils/json_utils.py: its structural validator, the
    field projection done on export, and the validate-then-return step of
    loading. Files are a map from path to parsed content; turning a value into
    JSON text and back is taken to be lossless. */
module AlignmentRecord {
  import opened Wrappers
  import opened Json

  /** The mapping passed around as `alignment_data`. */
  type Record = map<string, JsonValue>

  /** A file-system path, as its components. */
  type Path = seq<string>

  /** What each file holds: a parsed JSON value, or None when the text does
      not parse. */
  type FileSystem = map<Path, Option<JsonValue>>

  /** One element of `words` (tag "text") or `phonemes` (tag "symbol"):
      a dict holding the tag, `start` and `end`, the last two numeric.
      Python tests `key in e` on any element; on a list or string that is a
      membership or substring test and may go on to raise. The model treats
      every non-dict element as invalid. */
  predicate EntryValid(e: JsonValue, tag: string) {
    && e.JObject?
    && tag in e.fields && "start" in e.fields && "end" in e.fields
    && IsNumber(e.fields["start"])
    && IsNumber(e.fields["end"])
  }

  /** The `for` loop over the entries that returns False at the first bad one. */
  predicate EntriesValid(es: seq<JsonValue>, tag: string) {
    if es == [] then true
    else EntryValid(es[0], tag) && EntriesValid(es[1..], tag)
  }

  /** `validate_alignment_data`. */
  predicate Validate(d: Record) {
    && "words" in d
    && d["words"].JArray?
    && EntriesValid(d["words"].items, "text")
    && ("phonemes" in d && d["phonemes"].JArray? ==> EntriesValid(d["phonemes"].items, "symbol"))
  }

  /** Validation of whatever `json.load` returned. Anything but a dict fails:
      Python returns False or raises, and the loader turns either into the
      same wrapped error. */
  predicate ValidateValue(v: JsonValue) {
    v.JObject? && Validate(v.fields)
  }

  /** Every entry of a list is well formed. */
  ghost predicate AllEntriesValid(es: seq<JsonValue>, tag: string) {
    forall i :: 0 <= i < |es| ==> EntryValid(es[i], tag)
  }

  /** The early-exit loop accepts exactly the lists whose every entry is valid. */
  lemma {:induction false} EntriesValidIffAll(es: seq<JsonValue>, tag: string)
    ensures EntriesValid(es, tag) <==> AllEntriesValid(es, tag)
  {
    if es != [] {
      EntriesValidIffAll(es[1..], tag);
      assert forall i :: 1 <= i < |es| ==> es[i] == es[1..][i - 1];
    }
  }

  /** The validator, stated without the loop: `words` must be a list of valid
      word entries, and `phonemes` is checked only when it is a list. */
  lemma ValidateMeans(d: Record)
    ensures Validate(d) <==>
      && "words" in d && d["words"].JArray?
      && AllEntriesValid(d["words"].items, "text")
      && ("phonemes" in d && d["phonemes"].JArray? ==> AllEntriesValid(d["phonemes"].items, "symbol"))
  {
    if "words" in d && d["words"].JArray? {
      EntriesValidIffAll(d["words"].items, "text");
    }
    if "phonemes" in d && d["phonemes"].JArray? {
      EntriesValidIffAll(d["phonemes"].items, "symbol");
    }
  }

  /** A word entry that lacks `text`, `start` or `end`, or whose `start` or
      `end` is not a number, makes the whole record invalid. */
  lemma BadWordInvalidates(d: Record, i: nat)
    requires "words" in d && d["words"].JArray? && i < |d["words"].items|
    requires !EntryValid(d["words"].items[i], "text")
    ensures !Validate(d)
  {
    ValidateMeans(d);
  }

  /** A `phonemes` value that is not a list never changes the verdict. */
  lemma NonListPhonemesIgnored(d: Record, v: JsonValue)
    requires !v.JArray?
    ensures Validate(d["phonemes" := v]) == Validate(d - {"phonemes"})
  {
  }

  /** Keys other than `words` and `phonemes` never change the verdict. */
  lemma OtherKeysIgnored(d: Record, k: string, v: JsonValue)
    requires k != "words" && k != "phonemes"
    ensures Validate(d[k := v]) == Validate(d)
  {
  }

  /** `{"words": []}` is a valid record. */
  lemma EmptyWordsValid()
    ensures Validate(map["words" := JArray([])])
  {
  }

  /** The keys `export_to_json` copies besides `words`. */
  const OptionalKeys: set<string> := {"phonemes", "transcript", "whisper_segments"}

  /** The output dict built by `export_to_json`: `words` always, each optional
      key when present, every value unchanged, nothing else. */
  function Project(d: Record): (out: Record)
    requires "words" in d
    ensures out.Keys == {"words"} + (d.Keys * OptionalKeys)
    ensures forall k :: k in out ==> k in d && out[k] == d[k]
  {
    var out := map["words" := d["words"]];
    var out := if "phonemes" in d then out["phonemes" := d["phonemes"]] else out;
    var out := if "transcript" in d then out["transcript" := d["transcript"]] else out;
    if "whisper_segments" in d then out["whisper_segments" := d["whisper_segments"]] else out
  }

  /** Projecting twice is projecting once. */
  lemma ProjectIdempotent(d: Record)
    requires "words" in d
    ensures Project(Project(d)) == Project(d)
  {
  }

  /** The projection keeps exactly what the validator looks at, so it is
      valid exactly when its input is. */
  lemma ProjectKeepsValidity(d: Record)
    requires "words" in d
    ensures Validate(Project(d)) == Validate(d)
  {
  }

  /** `export_to_json(alignment_data, path)` against the files `fs`: it returns
      the written dict and the new file system. Validation comes first: on
      failure nothing is written. On success the destination is overwritten
      whatever it held. */
  function Export(d: Record, path: Path, fs: FileSystem): (r: (Result<Record, Fault>, FileSystem))
    ensures r.0.Err? <==> !Validate(d)
    ensures r.0.Err? ==> r.0.error == InvalidStructure && r.1 == fs
    ensures r.0.Ok? ==> r.1 == fs[path := Some(JObject(r.0.value))]
    ensures r.0.Ok? ==> r.0.value == Project(d) && Validate(r.0.value)
  {
    if !Validate(d) then (Err(InvalidStructure), fs)
    else
      ProjectKeepsValidity(d);
      var out := Project(d);
      (Ok(out), fs[path := Some(JObject(out))])
  }

  /** `load_alignment_json(path)`: the parsed value, unchanged, when it
      validates; an error when the file is missing, unparseable or invalid. */
  function Load(fs: FileSystem, path: Path): (r: Result<JsonValue, Fault>)
    ensures r.Ok? <==> path in fs && fs[path].Some? && ValidateValue(fs[path].value)
    ensures r.Ok? ==> r.value == fs[path].value
    ensures path !in fs || fs[path].None? ==> r == Err(Unreadable)
    ensures path in fs && fs[path].Some? && !ValidateValue(fs[path].value) ==> r == Err(InvalidStructure)
  {
    if path !in fs then Err(Unreadable)
    else match fs[path]
      case None => Err(Unreadable)
      case Some(v) => if ValidateValue(v) then Ok(v) else Err(InvalidStructure)
  }

  /** Round trip: what a successful export writes loads back unchanged, with
      the same `words` as the exported record. */
  lemma ExportThenLoad(d: Record, path: Path, fs: FileSystem)
    requires Validate(d)
    ensures Export(d, path, fs).0.Ok?
    ensures Load(Export(d, path, fs).1, path) == Ok(JObject(Project(d)))
    ensures Load(Export(d, path, fs).1, path).value.fields["words"] == d["words"]
  {
  }

  /** A loaded record exports again without error, and exporting what was
      exported writes the same dict. */
  lemma LoadThenExport(fs: FileSystem, path: Path, out: Path)
    requires Load(fs, path).Ok?
    ensures Export(Load(fs, path).value.fields, out, fs).0.Ok?
    ensures var d := Load(fs, path).value.fields;
      Export(Project(d), out, fs) == Export(d, out, fs)
  {
  }
}
