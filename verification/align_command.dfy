/** The `align` command of app.py, between the call to the transcription
    model and the call to the exporter: choosing the output path, turning the
    segments into words and building the alignment record that is written. */
module AlignCommand {
  import opened Wrappers
  import opened Json
  import opened AlignmentRecord
  import opened WordExtraction
  import TimingCheck

  /** The part of `transcribe_audio`'s result the command reads. */
  datatype Transcript = Transcript(text: string, segments: seq<JsonValue>)

  /** `s.rfind(c)`: the last index of `c`, or -1. */
  function RFind(s: string, c: char): (r: int)
    ensures -1 <= r < |s|
    ensures r >= 0 ==> s[r] == c
    ensures forall j :: r < j < |s| ==> s[j] != c
  {
    if s == [] then -1
    else if s[|s| - 1] == c then |s| - 1
    else RFind(s[..|s| - 1], c)
  }

  /** `PurePath.stem`: the name without its last suffix. A suffix starts at
      the last dot, which must be neither the first nor the last character:
      ".bashrc" and "x." have no suffix, "a.b.mp3" has stem "a.b". */
  function Stem(name: string): (r: string)
    ensures r <= name
    ensures r != name ==>
      && 0 < |r| && |r| + 1 < |name|
      && name[|r|] == '.'
      && (forall j :: |r| < j < |name| ==> name[j] != '.')
  {
    var i := RFind(name, '.');
    if 0 < i < |name| - 1 then name[..i] else name
  }

  /** Adding a suffix and taking the stem gives the name back. */
  lemma StemOfSuffixed(base: string, ext: string)
    requires base != [] && ext != []
    requires forall j :: 0 <= j < |ext| ==> ext[j] != '.'
    ensures Stem(base + "." + ext) == base
  {
    var name := base + "." + ext;
    assert name[|base|] == '.';
    assert forall j :: |base| < j < |name| ==> name[j] == ext[j - |base| - 1];
    var i := RFind(name, '.');
    assert i == |base|;
    assert name[..i] == base;
  }

  /** A name whose only dots are at either end is its own stem. */
  lemma StemOfUnsuffixed(name: string)
    requires forall j :: 0 < j < |name| - 1 ==> name[j] != '.'
    ensures Stem(name) == name
  {
  }

  /** Naming a file `<stem>.json` keeps its stem. */
  lemma JsonNameKeepsStem(stem: string)
    ensures stem != [] ==> Stem(stem + ".json") == stem
  {
    if stem != [] {
      StemOfSuffixed(stem, "json");
      assert stem + "." + "json" == stem + ".json";
    }
  }

  /** The last component of a path, `Path.name`. */
  function Name(p: Path): string {
    if p == [] then "" else p[|p| - 1]
  }

  /** `outputs/<stem of the audio file>.json`. */
  function DefaultOutput(audio: Path): (r: Path)
    ensures |r| == 2 && r[0] == "outputs"
    ensures Stem(Name(audio)) != [] ==> Stem(Name(r)) == Stem(Name(audio))
    ensures |r[1]| >= 5 && r[1][|r[1]| - 5..] == ".json"
  {
    var stem := Stem(Name(audio));
    JsonNameKeepsStem(stem);
    ["outputs", stem + ".json"]
  }

  /** The `--output` option when given, the default otherwise. */
  function OutputPath(output: Option<Path>, audio: Path): Path {
    if output.Some? then output.value else DefaultOutput(audio)
  }

  /** The `words` list built from the emitted words. */
  function WordsJson(ws: seq<Word>): seq<JsonValue> {
    seq(|ws|, i requires 0 <= i < |ws| => WordJson(ws[i]))
  }

  /** The keys of the record `align` builds. */
  const RecordKeys: set<string> := {"transcript", "words", "whisper_segments"}

  /** `alignment_data`: the transcript text, the words, and the raw segments. */
  function BuildRecord(t: Transcript, ws: seq<Word>): (rec: Record)
    ensures rec.Keys == RecordKeys
    ensures "phonemes" !in rec
  {
    map["transcript" := JString(t.text),
        "words" := JArray(WordsJson(ws)),
        "whisper_segments" := JArray(t.segments)]
  }

  /** Every emitted word makes a valid word entry, so the built record
      validates, and the export projection keeps all of it. */
  lemma RecordIsExportable(cc: CharClasses, t: Transcript, ws: seq<Word>)
    requires AllWellFormed(cc, ws)
    ensures Validate(BuildRecord(t, ws))
    ensures Project(BuildRecord(t, ws)) == BuildRecord(t, ws)
  {
    var rec := BuildRecord(t, ws);
    var items := WordsJson(ws);
    assert rec["words"] == JArray(items);
    assert forall i :: 0 <= i < |items| ==> EntryValid(items[i], "text");
    ValidateMeans(rec);
    var p := Project(rec);
    assert p.Keys == rec.Keys;
  }

  /** The record never passes the timing check: it has no `phonemes`, so
      even when every word is well timed the check raises KeyError. */
  lemma RecordFailsTimingCheck(t: Transcript, ws: seq<Word>)
    ensures TimingCheck.VerifyTiming(BuildRecord(t, ws)) != TimingCheck.Consistent
    ensures TimingCheck.GoodWords(WordsJson(ws)) ==>
      TimingCheck.VerifyTiming(BuildRecord(t, ws)) == TimingCheck.Raised(KeyMissing("phonemes"))
  {
    var rec := BuildRecord(t, ws);
    assert Elements(rec["words"]) == Some(WordsJson(ws));
    TimingCheck.MissingPhonemesRaises(rec);
  }

  /** The `align` command from the transcription on, against the files `fs`.
      Any fault while extracting words aborts with nothing written; otherwise
      the record is exported to the chosen path, which cannot fail. */
  function Align(audio: Path, output: Option<Path>, t: Transcript, cc: CharClasses, fs: FileSystem)
    : (r: (Result<Path, Fault>, FileSystem))
    ensures r.0.Ok? <==> ExtractWords(cc, t.segments).Ok?
    ensures r.0.Err? ==> r.1 == fs && r.0.error == ExtractWords(cc, t.segments).error
    ensures r.0.Ok? && output.Some? ==> r.0.value == output.value
    ensures r.0.Ok? && output.None? ==> r.0.value == DefaultOutput(audio)
    ensures r.0.Ok? ==>
      r.1 == fs[r.0.value := Some(JObject(BuildRecord(t, ExtractWords(cc, t.segments).value)))]
  {
    var path := OutputPath(output, audio);
    match ExtractWords(cc, t.segments)
    case Err(f) => (Err(f), fs)
    case Ok(ws) =>
      RecordIsExportable(cc, t, ws);
      var (written, fs') := Export(BuildRecord(t, ws), path, fs);
      match written
      case Ok(_) => (Ok(path), fs')
      case Err(_) => assert false; (Err(InvalidStructure), fs)
  }

  /** When word extraction succeeds, `align` succeeds, and what it writes
      loads back as the record it built, with one word entry per emitted word. */
  lemma AlignThenLoad(audio: Path, output: Option<Path>, t: Transcript, cc: CharClasses, fs: FileSystem)
    requires ExtractWords(cc, t.segments).Ok?
    ensures Align(audio, output, t, cc, fs).0.Ok?
    ensures var (r, fs') := Align(audio, output, t, cc, fs);
      var ws := ExtractWords(cc, t.segments).value;
      && Load(fs', r.value) == Ok(JObject(BuildRecord(t, ws)))
      && Load(fs', r.value).value.fields["words"] == JArray(WordsJson(ws))
  {
  }

  /** Under the corrected check, a record whose words are well timed passes. */
  lemma RecordPassesOptionalPhonemesCheck(t: Transcript, ws: seq<Word>)
    ensures TimingCheck.VerifyTimingOptionalPhonemes(BuildRecord(t, ws)) == TimingCheck.Consistent
        <==> TimingCheck.GoodWords(WordsJson(ws))
  {
  }
}
