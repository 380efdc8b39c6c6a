/** `verify_timing_accuracy` of utils/json_utils.py: a fail-fast walk over the
    words (start before end, neighbours at most one second apart) and then
    the phonemes (start before end only). Timestamps are exact reals. */
module TimingCheck {
  import opened Wrappers
  import opened Json
  import AlignmentRecord

  /** The outcome of the check: True, or the exception it raises. */
  datatype Verdict =
    | Consistent
    | InvalidWordTiming(index: nat)
    | LargeGap(before: nat, after: nat, gap: real)
    | InvalidPhonemeTiming(index: nat)
    | Raised(fault: Fault)   // KeyError or TypeError escaping the check

  datatype Span = Span(start: real, end: real)

  /** Which list is being walked: only words get the gap check. */
  datatype Track = WordTrack | PhonemeTrack

  /** The gap tolerance, in seconds. */
  const MaxGap: real := 1.0

  /** `entry["start"]` and `entry["end"]`, evaluated in that order and then
      compared. Python would also compare two strings or two lists; the model
      treats any non-number as a TypeError. */
  function SpanOf(e: JsonValue): (r: Result<Span, Fault>)
    ensures r.Ok? <==> e.JObject? && "start" in e.fields && "end" in e.fields
                       && IsNumber(e.fields["start"]) && IsNumber(e.fields["end"])
    ensures r.Ok? ==> (Number(e.fields["start"]) == Ok(r.value.start)
                       && Number(e.fields["end"]) == Ok(r.value.end))
  {
    var s :- Subscript(e, "start");
    var t :- Subscript(e, "end");
    var a :- Number(s);
    var b :- Number(t);
    Ok(Span(a, b))
  }

  /** `prev_word["end"]` as used in the gap. */
  function EndOf(e: JsonValue): Result<real, Fault> {
    var t :- Subscript(e, "end");
    Number(t)
  }

  /** The body of the loop at index `i`: None when the entry passes. */
  function Step(track: Track, es: seq<JsonValue>, i: nat): Option<Verdict>
    requires i < |es|
  {
    match SpanOf(es[i])
    case Err(f) => Some(Raised(f))
    case Ok(cur) =>
      if cur.start >= cur.end then
        Some(if track == WordTrack then InvalidWordTiming(i) else InvalidPhonemeTiming(i))
      else if track == PhonemeTrack || i == 0 then None
      else match EndOf(es[i - 1])
        case Err(f) => Some(Raised(f))
        case Ok(prevEnd) =>
          var gap := cur.start - prevEnd;
          if Abs(gap) > MaxGap then Some(LargeGap(i - 1, i, gap)) else None
  }

  /** The loop from index `from` on: the first failing step, if any. */
  function Scan(track: Track, es: seq<JsonValue>, from: nat): Option<Verdict>
    requires from <= |es|
    decreases |es| - from
  {
    if from == |es| then None
    else match Step(track, es, from)
      case Some(v) => Some(v)
      case None => Scan(track, es, from + 1)
  }

  /** `verify_timing_accuracy(alignment_data)`. It reads `phonemes` without
      checking that the key exists. */
  function VerifyTiming(d: map<string, JsonValue>): Verdict {
    if "words" !in d then Raised(KeyMissing("words"))
    else match Elements(d["words"])
      case None => Raised(TypeMismatch)
      case Some(ws) =>
        match Scan(WordTrack, ws, 0)
        case Some(v) => v
        case None =>
          if "phonemes" !in d then Raised(KeyMissing("phonemes"))
          else match Elements(d["phonemes"])
            case None => Raised(TypeMismatch)
            case Some(ps) =>
              match Scan(PhonemeTrack, ps, 0)
              case Some(v) => v
              case None => Consistent
  }

  // ---------------------------------------------------------------------
  // The reference: what a consistent record is, without the loop.

  /** The spans of all entries, when every entry has numeric `start`/`end`. */
  function Spans(es: seq<JsonValue>): (r: Option<seq<Span>>)
    ensures r.Some? ==> |r.value| == |es| && forall i :: 0 <= i < |es| ==> SpanOf(es[i]) == Ok(r.value[i])
  {
    if forall i :: 0 <= i < |es| ==> SpanOf(es[i]).Ok? then
      Some(seq(|es|, i requires 0 <= i < |es| => SpanOf(es[i]).value))
    else None
  }

  /** Every span starts strictly before it ends. */
  predicate Ordered(ss: seq<Span>) {
    forall i :: 0 <= i < |ss| ==> ss[i].start < ss[i].end
  }

  /** Each span starts within one second of the end of the previous one. */
  predicate Close(ss: seq<Span>) {
    forall i :: 0 < i < |ss| ==> Abs(ss[i].start - ss[i - 1].end) <= MaxGap
  }

  /** A list of word entries passes: numeric, ordered, and close. */
  predicate GoodWords(ws: seq<JsonValue>) {
    Spans(ws).Some? && Ordered(Spans(ws).value) && Close(Spans(ws).value)
  }

  /** A list of phoneme entries passes: numeric and ordered; no gap check. */
  predicate GoodPhonemes(ps: seq<JsonValue>) {
    Spans(ps).Some? && Ordered(Spans(ps).value)
  }

  predicate TimingConsistent(d: map<string, JsonValue>) {
    && "words" in d && Elements(d["words"]).Some? && GoodWords(Elements(d["words"]).value)
    && "phonemes" in d && Elements(d["phonemes"]).Some? && GoodPhonemes(Elements(d["phonemes"]).value)
  }

  // ---------------------------------------------------------------------
  // Lemmas.

  lemma EndOfAgrees(e: JsonValue)
    requires SpanOf(e).Ok?
    ensures EndOf(e) == Ok(SpanOf(e).value.end)
  {
  }

  /** The scan passes exactly when every remaining step passes. */
  lemma {:induction false} ScanNoneIff(track: Track, es: seq<JsonValue>, from: nat)
    requires from <= |es|
    ensures Scan(track, es, from).None? <==> forall i :: from <= i < |es| ==> Step(track, es, i).None?
    decreases |es| - from
  {
    if from < |es| {
      ScanNoneIff(track, es, from + 1);
    }
  }

  /** A failing scan reports the first failing step, and every step before it passed. */
  lemma {:induction false} ScanFindsFirst(track: Track, es: seq<JsonValue>, from: nat) returns (i: nat)
    requires from <= |es|
    requires Scan(track, es, from).Some?
    ensures from <= i < |es|
    ensures Step(track, es, i) == Scan(track, es, from)
    ensures forall j :: from <= j < i ==> Step(track, es, j).None?
    decreases |es| - from
  {
    if Step(track, es, from).Some? {
      i := from;
    } else {
      i := ScanFindsFirst(track, es, from + 1);
    }
  }

  /** What it takes for the loop body at index `i` to pass. */
  lemma StepPasses(track: Track, es: seq<JsonValue>, i: nat)
    requires i < |es|
    ensures Step(track, es, i).None? <==>
      && SpanOf(es[i]).Ok?
      && SpanOf(es[i]).value.start < SpanOf(es[i]).value.end
      && (track == WordTrack && i > 0 ==>
            EndOf(es[i - 1]).Ok? && Abs(SpanOf(es[i]).value.start - EndOf(es[i - 1]).value) <= MaxGap)
  {
  }

  /** Word steps all pass exactly when the word list is good. */
  lemma WordStepsIff(ws: seq<JsonValue>)
    ensures (forall i :: 0 <= i < |ws| ==> Step(WordTrack, ws, i).None?) <==> GoodWords(ws)
  {
    if forall i :: 0 <= i < |ws| ==> Step(WordTrack, ws, i).None? {
      forall i | 0 <= i < |ws|
        ensures SpanOf(ws[i]).Ok?
      {
        StepPasses(WordTrack, ws, i);
      }
      var ss := Spans(ws).value;
      forall i | 0 <= i < |ws|
        ensures ss[i].start < ss[i].end
        ensures i > 0 ==> Abs(ss[i].start - ss[i - 1].end) <= MaxGap
      {
        StepPasses(WordTrack, ws, i);
        if i > 0 {
          EndOfAgrees(ws[i - 1]);
        }
      }
    }
    if GoodWords(ws) {
      var ss := Spans(ws).value;
      forall i | 0 <= i < |ws|
        ensures Step(WordTrack, ws, i).None?
      {
        StepPasses(WordTrack, ws, i);
        if i > 0 {
          EndOfAgrees(ws[i - 1]);
        }
      }
    }
  }

  /** Phoneme steps all pass exactly when the phoneme list is good. */
  lemma PhonemeStepsIff(ps: seq<JsonValue>)
    ensures (forall i :: 0 <= i < |ps| ==> Step(PhonemeTrack, ps, i).None?) <==> GoodPhonemes(ps)
  {
    if forall i :: 0 <= i < |ps| ==> Step(PhonemeTrack, ps, i).None? {
      forall i | 0 <= i < |ps|
        ensures SpanOf(ps[i]).Ok?
      {
        StepPasses(PhonemeTrack, ps, i);
      }
      var ss := Spans(ps).value;
      forall i | 0 <= i < |ps|
        ensures ss[i].start < ss[i].end
      {
        StepPasses(PhonemeTrack, ps, i);
      }
    }
    if GoodPhonemes(ps) {
      forall i | 0 <= i < |ps|
        ensures Step(PhonemeTrack, ps, i).None?
      {
        StepPasses(PhonemeTrack, ps, i);
      }
    }
  }

  /** The check returns True exactly when every word starts before it ends,
      consecutive words are at most one second apart, and every phoneme
      starts before it ends. */
  lemma VerifyTimingIff(d: map<string, JsonValue>)
    ensures VerifyTiming(d) == Consistent <==> TimingConsistent(d)
  {
    if "words" in d && Elements(d["words"]).Some? {
      var ws := Elements(d["words"]).value;
      ScanNoneIff(WordTrack, ws, 0);
      WordStepsIff(ws);
      if Scan(WordTrack, ws, 0).Some? {
        var i := ScanFindsFirst(WordTrack, ws, 0);
      } else if "phonemes" in d && Elements(d["phonemes"]).Some? {
        var ps := Elements(d["phonemes"]).value;
        ScanNoneIff(PhonemeTrack, ps, 0);
        PhonemeStepsIff(ps);
        if Scan(PhonemeTrack, ps, 0).Some? {
          var i := ScanFindsFirst(PhonemeTrack, ps, 0);
        }
      }
    }
  }

  /** The steps before index `i` look only at entries before `i`. */
  lemma PrefixSteps(track: Track, es: seq<JsonValue>, i: nat)
    requires i <= |es|
    ensures forall j :: 0 <= j < i ==> Step(track, es[..i], j) == Step(track, es, j)
  {
  }

  /** When the scan of `es` fails at `i`, the entries before `i` form a good list. */
  lemma PassedPrefix(track: Track, es: seq<JsonValue>, i: nat)
    requires i <= |es|
    requires forall j :: 0 <= j < i ==> Step(track, es, j).None?
    ensures track == WordTrack ==> GoodWords(es[..i])
    ensures track == PhonemeTrack ==> GoodPhonemes(es[..i])
  {
    PrefixSteps(track, es, i);
    if track == WordTrack {
      WordStepsIff(es[..i]);
    } else {
      PhonemeStepsIff(es[..i]);
    }
  }

  /** A bad word timing is reported at the lowest offending index: every
      earlier word passed every check, and this word starts at or after its
      end. */
  lemma InvalidWordIsFirst(d: map<string, JsonValue>)
    requires VerifyTiming(d).InvalidWordTiming?
    ensures "words" in d && Elements(d["words"]).Some?
    ensures var ws, i := Elements(d["words"]).value, VerifyTiming(d).index;
      && i < |ws|
      && GoodWords(ws[..i])
      && SpanOf(ws[i]).Ok?
      && SpanOf(ws[i]).value.start >= SpanOf(ws[i]).value.end
  {
    var ws := Elements(d["words"]).value;
    if Scan(WordTrack, ws, 0).Some? {
      var i := ScanFindsFirst(WordTrack, ws, 0);
      PassedPrefix(WordTrack, ws, i);
    } else if "phonemes" in d && Elements(d["phonemes"]).Some? {
      var i := ScanFindsFirst(PhonemeTrack, Elements(d["phonemes"]).value, 0);
    }
  }

  /** A large gap is reported for the first offending pair (i - 1, i): every
      earlier word passed, word i itself starts before it ends (the
      start/end check comes first), and the reported gap is
      `start[i] - end[i - 1]`, more than one second either way. */
  lemma LargeGapIsFirst(d: map<string, JsonValue>)
    requires VerifyTiming(d).LargeGap?
    ensures "words" in d && Elements(d["words"]).Some?
    ensures var ws, v := Elements(d["words"]).value, VerifyTiming(d);
      && v.after == v.before + 1
      && v.after < |ws|
      && GoodWords(ws[..v.after])
      && SpanOf(ws[v.after]).Ok? && SpanOf(ws[v.before]).Ok?
      && SpanOf(ws[v.after]).value.start < SpanOf(ws[v.after]).value.end
      && v.gap == SpanOf(ws[v.after]).value.start - SpanOf(ws[v.before]).value.end
      && Abs(v.gap) > MaxGap
  {
    var ws := Elements(d["words"]).value;
    if Scan(WordTrack, ws, 0).Some? {
      var i := ScanFindsFirst(WordTrack, ws, 0);
      PassedPrefix(WordTrack, ws, i);
      StepPasses(WordTrack, ws, i - 1);
      EndOfAgrees(ws[i - 1]);
    } else if "phonemes" in d && Elements(d["phonemes"]).Some? {
      var i := ScanFindsFirst(PhonemeTrack, Elements(d["phonemes"]).value, 0);
    }
  }

  /** A bad phoneme is reported only once every word has passed, at the
      lowest offending phoneme index. */
  lemma InvalidPhonemeIsFirst(d: map<string, JsonValue>)
    requires VerifyTiming(d).InvalidPhonemeTiming?
    ensures "words" in d && Elements(d["words"]).Some? && GoodWords(Elements(d["words"]).value)
    ensures "phonemes" in d && Elements(d["phonemes"]).Some?
    ensures var ps, i := Elements(d["phonemes"]).value, VerifyTiming(d).index;
      && i < |ps|
      && GoodPhonemes(ps[..i])
      && SpanOf(ps[i]).Ok?
      && SpanOf(ps[i]).value.start >= SpanOf(ps[i]).value.end
  {
    var ws := Elements(d["words"]).value;
    if Scan(WordTrack, ws, 0).Some? {
      var i := ScanFindsFirst(WordTrack, ws, 0);
    } else {
      ScanNoneIff(WordTrack, ws, 0);
      WordStepsIff(ws);
      var ps := Elements(d["phonemes"]).value;
      var i := ScanFindsFirst(PhonemeTrack, ps, 0);
      PassedPrefix(PhonemeTrack, ps, i);
    }
  }

  /** A record without `phonemes` never passes: once its words pass, the
      check raises KeyError on the missing key. */
  lemma MissingPhonemesRaises(d: map<string, JsonValue>)
    requires "phonemes" !in d
    ensures VerifyTiming(d) != Consistent
    ensures "words" in d && Elements(d["words"]).Some? && GoodWords(Elements(d["words"]).value)
      ==> VerifyTiming(d) == Raised(KeyMissing("phonemes"))
  {
    VerifyTimingIff(d);
    if "words" in d && Elements(d["words"]).Some? && GoodWords(Elements(d["words"]).value) {
      var ws := Elements(d["words"]).value;
      ScanNoneIff(WordTrack, ws, 0);
      WordStepsIff(ws);
    }
  }

  /** On entries that pass validation no loop step raises: every entry has
      numeric `start` and `end`, and so does its predecessor. */
  lemma ValidEntriesNeverRaise(track: Track, es: seq<JsonValue>, tag: string, i: nat)
    requires i < |es|
    requires AlignmentRecord.AllEntriesValid(es, tag)
    ensures Step(track, es, i).Some? ==> !Step(track, es, i).value.Raised?
  {
    if i > 0 {
      EndOfAgrees(es[i - 1]);
    }
  }

  /** On a record that validates, the check never raises while walking the
      words: it raises only after every word passed, and then only on
      `phonemes`, because the key is missing or holds a value that is not a
      list and cannot be walked. Any other failure is one of the three
      timing verdicts located by the lemmas above. */
  lemma ValidatedRecordRaisesOnlyOnPhonemes(d: map<string, JsonValue>)
    requires AlignmentRecord.Validate(d)
    ensures VerifyTiming(d).Raised? ==>
      && GoodWords(d["words"].items)
      && (|| ("phonemes" !in d && VerifyTiming(d).fault == KeyMissing("phonemes"))
          || ("phonemes" in d && !d["phonemes"].JArray? && VerifyTiming(d).fault == TypeMismatch))
  {
    AlignmentRecord.ValidateMeans(d);
    var ws := d["words"].items;
    if Scan(WordTrack, ws, 0).Some? {
      var i := ScanFindsFirst(WordTrack, ws, 0);
      ValidEntriesNeverRaise(WordTrack, ws, "text", i);
    } else {
      ScanNoneIff(WordTrack, ws, 0);
      WordStepsIff(ws);
      if "phonemes" in d && d["phonemes"].JArray? {
        var ps := d["phonemes"].items;
        if Scan(PhonemeTrack, ps, 0).Some? {
          var i := ScanFindsFirst(PhonemeTrack, ps, 0);
          ValidEntriesNeverRaise(PhonemeTrack, ps, "symbol", i);
        }
      }
    }
  }

  /** The check as evidently intended: a record without `phonemes` has no
      phonemes to check, as if the lookup were `alignment_data.get("phonemes", [])`.
      Records that have the key are checked exactly as before. */
  function VerifyTimingOptionalPhonemes(d: map<string, JsonValue>): (v: Verdict)
    ensures "phonemes" in d ==> v == VerifyTiming(d)
    ensures "phonemes" !in d ==>
      (v == Consistent <==> "words" in d && Elements(d["words"]).Some? && GoodWords(Elements(d["words"]).value))
  {
    if "phonemes" in d then VerifyTiming(d)
    else
      var e := d["phonemes" := JArray([])];
      VerifyTimingIff(e);
      assert Spans([]) == Some([]);
      assert "words" in d ==> e["words"] == d["words"];
      VerifyTiming(e)
  }

  /** A timed entry `{tag: "x", "start": s, "end": e}`. */
  function Entry(tag: string, s: real, e: real): JsonValue {
    JObject(map[tag := JString("x"), "start" := JReal(s), "end" := JReal(e)])
  }

  /** A gap of exactly one second passes; the comparison is strict. */
  lemma GapOfOneSecondPasses()
    ensures VerifyTiming(map["words" := JArray([Entry("text", 0.0, 1.0), Entry("text", 2.0, 3.0)]),
                             "phonemes" := JArray([])]) == Consistent
  {
  }

  /** A word ending at 1.000 followed by one starting at 2.500 is a gap of
      1.5 seconds and is reported; starting at 1.900 instead passes. */
  lemma GapExamples()
    ensures VerifyTiming(map["words" := JArray([Entry("text", 0.5, 1.0), Entry("text", 2.5, 3.0)]),
                             "phonemes" := JArray([])]) == LargeGap(0, 1, 1.5)
    ensures VerifyTiming(map["words" := JArray([Entry("text", 0.5, 1.0), Entry("text", 1.9, 3.0)]),
                             "phonemes" := JArray([])]) == Consistent
  {
  }

  /** Phonemes get no gap check: phonemes a minute apart pass. */
  lemma PhonemesHaveNoGapCheck()
    ensures VerifyTiming(map["words" := JArray([]),
                             "phonemes" := JArray([Entry("symbol", 0.0, 1.0), Entry("symbol", 60.0, 61.0)])]) == Consistent
  {
  }
}
