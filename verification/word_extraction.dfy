/** The loop of app.py's `align` command that flattens the transcription
    segments into word records: strip each token, delete every character
    outside `[\w\s'-]`, drop it if nothing is left, round its timestamps to
    milliseconds. The Unicode classes `\w` and `\s` are parameters. */
module WordExtraction {
  import opened Wrappers
  import opened Json

  /** Stand-ins for Unicode `\w` and `\s`. `str.strip()` removes the same
      whitespace characters that `\s` matches. */
  datatype CharClasses = CharClasses(isWord: char -> bool, isSpace: char -> bool)

  /** The characters of `[\w\s'-]`, the ones the punctuation filter keeps. */
  predicate Kept(cc: CharClasses, c: char) {
    cc.isWord(c) || cc.isSpace(c) || c == '\'' || c == '-'
  }

  /** The number of leading whitespace characters. */
  function LeadingSpaces(cc: CharClasses, s: string): (n: nat)
    ensures n <= |s|
    ensures forall i :: 0 <= i < n ==> cc.isSpace(s[i])
    ensures n < |s| ==> !cc.isSpace(s[n])
  {
    if s == [] || !cc.isSpace(s[0]) then 0 else 1 + LeadingSpaces(cc, s[1..])
  }

  /** The index just past the last non-whitespace character, 0 if none. */
  function ContentEnd(cc: CharClasses, s: string): (n: nat)
    ensures n <= |s|
    ensures forall i :: n <= i < |s| ==> cc.isSpace(s[i])
    ensures n > 0 ==> !cc.isSpace(s[n - 1])
  {
    if s == [] || !cc.isSpace(s[|s| - 1]) then |s| else ContentEnd(cc, s[..|s| - 1])
  }

  /** `str.strip()`: the slice starting at the first non-whitespace
      character and ending at the last; everything outside it is whitespace,
      and it is empty exactly when the whole string is. */
  function Strip(cc: CharClasses, s: string): (r: string)
    ensures LeadingSpaces(cc, s) + |r| <= |s|
    ensures r == s[LeadingSpaces(cc, s)..LeadingSpaces(cc, s) + |r|]
    ensures forall i :: 0 <= i < |s| && !(LeadingSpaces(cc, s) <= i < LeadingSpaces(cc, s) + |r|)
              ==> cc.isSpace(s[i])
    ensures r != [] ==> !cc.isSpace(r[0]) && !cc.isSpace(r[|r| - 1])
    ensures r == [] <==> forall i :: 0 <= i < |s| ==> cc.isSpace(s[i])
  {
    var lo, hi := LeadingSpaces(cc, s), ContentEnd(cc, s);
    if hi <= lo then [] else s[lo..hi]
  }

  /** `re.sub(r"[^\w\s\'-]", "", s)`: the kept characters of `s`, in order. */
  function Filter(cc: CharClasses, s: string): (r: string)
    ensures |r| <= |s|
    ensures forall i :: 0 <= i < |r| ==> Kept(cc, r[i])
    ensures r == [] <==> forall i :: 0 <= i < |s| ==> !Kept(cc, s[i])
  {
    if s == [] then []
    else
      var rest := Filter(cc, s[1..]);
      assert forall i :: 1 <= i < |s| ==> s[i] == s[1..][i - 1];
      if Kept(cc, s[0]) then [s[0]] + rest else rest
  }

  /** Filtering a concatenation filters each part. */
  lemma {:induction false} FilterAppend(cc: CharClasses, a: string, b: string)
    ensures Filter(cc, a + b) == Filter(cc, a) + Filter(cc, b)
  {
    if a != [] {
      assert (a + b)[0] == a[0];
      assert (a + b)[1..] == a[1..] + b;
      FilterAppend(cc, a[1..], b);
    } else {
      assert a + b == b;
    }
  }

  /** A string of kept characters passes the filter unchanged. */
  lemma {:induction false} FilterKeepsKept(cc: CharClasses, s: string)
    requires forall i :: 0 <= i < |s| ==> Kept(cc, s[i])
    ensures Filter(cc, s) == s
  {
    if s != [] {
      FilterKeepsKept(cc, s[1..]);
    }
  }

  /** Filtering twice is filtering once. */
  lemma FilterIdempotent(cc: CharClasses, s: string)
    ensures Filter(cc, Filter(cc, s)) == Filter(cc, s)
  {
  }

  /** The text of a token after stripping and filtering. Filtering happens
      after stripping, so whitespace next to deleted punctuation stays:
      "Hello ," becomes "Hello ". */
  function CleanText(cc: CharClasses, raw: string): string {
    Filter(cc, Strip(cc, raw))
  }

  /** The integer nearest to `y`, ties to even: Python's `round` on a real. */
  function RoundHalfEven(y: real): (n: int)
    ensures Abs(n as real - y) <= 0.5
    ensures Abs(n as real - y) == 0.5 ==> n % 2 == 0
  {
    var f := y.Floor;
    var frac := y - f as real;
    if frac < 0.5 then f
    else if frac > 0.5 then f + 1
    else if f % 2 == 0 then f else f + 1
  }

  /** `round(x, 3)` on an exact real: the nearest multiple of 0.001, ties to
      even. */
  function RoundMillis(x: real): (r: real)
    ensures Abs(r - x) <= 0.0005
    ensures (r * 1000.0).Floor as real == r * 1000.0
    ensures Abs(r - x) == 0.0005 ==> (r * 1000.0).Floor % 2 == 0
  {
    var n := RoundHalfEven(x * 1000.0);
    ScaleMillis(n, x);
    n as real / 1000.0
  }

  /** Dividing by a thousand scales the distance to `x` by a thousand. */
  lemma ScaleMillis(n: int, x: real)
    ensures (n as real / 1000.0) * 1000.0 == n as real
    ensures Abs(n as real / 1000.0 - x) == Abs(n as real - x * 1000.0) / 1000.0
  {
  }

  /** Ties go to the even millisecond. The inputs are exact in binary, so
      they are ties for Python's doubles as well: 62.5 ms rounds down to 62,
      187.5 ms up to 188, and -62.5 ms to -62. */
  lemma RoundMillisTiesToEven()
    ensures RoundMillis(0.0625) == 0.062
    ensures RoundMillis(0.1875) == 0.188
    ensures RoundMillis(-0.0625) == -0.062
  {
  }

  /** Rounding a value that is already a whole number of milliseconds
      leaves it unchanged, so rounding is idempotent. */
  lemma RoundMillisIdempotent(x: real)
    ensures RoundMillis(RoundMillis(x)) == RoundMillis(x)
  {
  }

  /** `round(v, 3)` on a JSON value: an int (and a bool, as 0 or 1) comes back
      as an int, a float is rounded, anything else raises TypeError. */
  function Rounded(v: JsonValue): (r: Result<JsonValue, Fault>)
    ensures r.Ok? <==> IsNumber(v)
    ensures r.Ok? ==> IsNumber(r.value)
    ensures v.JInt? ==> r == Ok(v)
    ensures v.JReal? ==> r == Ok(JReal(RoundMillis(v.r)))
  {
    match v
    case JBool(b) => Ok(JInt(if b then 1 else 0))
    case JInt(_) => Ok(v)
    case JReal(x) => Ok(JReal(RoundMillis(x)))
    case _ => Err(TypeMismatch)
  }

  /** `round(word_data.get(key, 0), 3)`. */
  function Timestamp(m: map<string, JsonValue>, key: string): (r: Result<JsonValue, Fault>)
    ensures key !in m ==> r == Ok(JInt(0))
    ensures r.Ok? <==> key !in m || IsNumber(m[key])
    ensures r.Ok? ==> IsNumber(r.value)
  {
    if key !in m then Ok(JInt(0)) else Rounded(m[key])
  }

  /** One emitted word. */
  datatype Word = Word(text: string, start: JsonValue, end: JsonValue)

  /** The dict `{"text": ..., "start": ..., "end": ...}` appended to `words`. */
  function WordJson(w: Word): JsonValue {
    JObject(map["text" := JString(w.text), "start" := w.start, "end" := w.end])
  }

  /** What every emitted word looks like: non-empty text made only of kept
      characters, numeric timestamps. */
  predicate WellFormedWord(cc: CharClasses, w: Word) {
    && w.text != []
    && (forall i :: 0 <= i < |w.text| ==> Kept(cc, w.text[i]))
    && IsNumber(w.start) && IsNumber(w.end)
  }

  /** Every word of a list is well formed. */
  predicate AllWellFormed(cc: CharClasses, ws: seq<Word>) {
    forall i :: 0 <= i < |ws| ==> WellFormedWord(cc, ws[i])
  }

  /** `word_data.get("word", "").strip()` needs a string: a missing key gives
      "", any other kind of value raises. */
  function RawText(m: map<string, JsonValue>): Result<string, Fault> {
    if "word" !in m then Ok("")
    else if m["word"].JString? then Ok(m["word"].s)
    else Err(TypeMismatch)
  }

  /** The loop body for one token: None when the token is dropped. The
      timestamps are read only for a kept token. A token that is not a dict
      has no `.get` and raises. */
  function TokenWord(cc: CharClasses, token: JsonValue): (r: Result<Option<Word>, Fault>)
    ensures !token.JObject? ==> r == Err(TypeMismatch)
    ensures token.JObject? && RawText(token.fields).Ok? ==>
      (r == Ok(None) <==> CleanText(cc, RawText(token.fields).value) == [])
    ensures token.JObject? && "word" !in token.fields ==> r == Ok(None)
    ensures r.Ok? && r.value.Some? ==>
      && token.JObject? && RawText(token.fields).Ok?
      && WellFormedWord(cc, r.value.value)
      && r.value.value.text == CleanText(cc, RawText(token.fields).value)
      && Timestamp(token.fields, "start") == Ok(r.value.value.start)
      && Timestamp(token.fields, "end") == Ok(r.value.value.end)
  {
    if !token.JObject? then Err(TypeMismatch)
    else
      var raw :- RawText(token.fields);
      var text := CleanText(cc, raw);
      if text == [] then Ok(None)
      else
        var start :- Timestamp(token.fields, "start");
        var end :- Timestamp(token.fields, "end");
        Ok(Some(Word(text, start, end)))
  }

  /** The words a token contributes: zero or one, or its error. */
  function Contribution(r: Result<Option<Word>, Fault>): Result<seq<Word>, Fault> {
    match r
    case Err(f) => Err(f)
    case Ok(None) => Ok([])
    case Ok(Some(w)) => Ok([w])
  }

  /** Fail-fast concatenation of two partial results: the first error wins. */
  function Join(a: Result<seq<Word>, Fault>, b: Result<seq<Word>, Fault>): Result<seq<Word>, Fault> {
    if a.Err? then a else if b.Err? then b else Ok(a.value + b.value)
  }

  lemma JoinAssociative(a: Result<seq<Word>, Fault>, b: Result<seq<Word>, Fault>, c: Result<seq<Word>, Fault>)
    ensures Join(Join(a, b), c) == Join(a, Join(b, c))
  {
    if a.Ok? && b.Ok? && c.Ok? {
      assert (a.value + b.value) + c.value == a.value + (b.value + c.value);
    }
  }

  lemma JoinEmpty(a: Result<seq<Word>, Fault>)
    ensures Join(a, Ok([])) == a
  {
    if a.Ok? {
      assert a.value + [] == a.value;
    }
  }

  lemma JoinEmptyLeft(b: Result<seq<Word>, Fault>)
    ensures Join(Ok([]), b) == b
  {
    if b.Ok? {
      assert [] + b.value == b.value;
    }
  }

  /** The inner loop over a segment's tokens. */
  function TokensWords(cc: CharClasses, tokens: seq<JsonValue>): (r: Result<seq<Word>, Fault>)
    ensures r.Ok? ==> |r.value| <= |tokens|
    ensures r.Ok? ==> AllWellFormed(cc, r.value)
  {
    if tokens == [] then Ok([])
    else Join(Contribution(TokenWord(cc, tokens[0])), TokensWords(cc, tokens[1..]))
  }

  /** The number of tokens a segment offers. */
  function TokenCount(seg: JsonValue): nat {
    if seg.JObject? && "words" in seg.fields && seg.fields["words"].JArray?
    then |seg.fields["words"].items| else 0
  }

  /** The words of one segment. `if "words" in segment and segment["words"]`
      skips a segment without the key or with a falsy value. A truthy value
      that is not a list raises: a non-empty string or dict yields `str`
      items, which have no `.get`, and a number is not iterable. A segment
      that is not a dict is treated as an error; Python would test `in` on a
      list or string and could go on silently. */
  function SegmentWords(cc: CharClasses, seg: JsonValue): (r: Result<seq<Word>, Fault>)
    ensures seg.JObject? && ("words" !in seg.fields || !Truthy(seg.fields["words"])) ==> r == Ok([])
    ensures seg.JObject? && "words" in seg.fields && seg.fields["words"].JArray?
      ==> r == TokensWords(cc, seg.fields["words"].items)
    ensures r.Ok? ==> |r.value| <= TokenCount(seg)
    ensures r.Ok? ==> AllWellFormed(cc, r.value)
  {
    if !seg.JObject? then Err(TypeMismatch)
    else if "words" !in seg.fields || !Truthy(seg.fields["words"]) then Ok([])
    else match seg.fields["words"]
      case JArray(items) => TokensWords(cc, items)
      case _ => Err(TypeMismatch)
  }

  /** The total number of tokens across the segments. */
  function TotalTokens(segs: seq<JsonValue>): nat {
    if segs == [] then 0 else TokenCount(segs[0]) + TotalTokens(segs[1..])
  }

  /** The outer loop over the segments. */
  function ExtractWords(cc: CharClasses, segs: seq<JsonValue>): (r: Result<seq<Word>, Fault>)
    ensures r.Ok? ==> |r.value| <= TotalTokens(segs)
    ensures r.Ok? ==> AllWellFormed(cc, r.value)
  {
    if segs == [] then Ok([])
    else Join(SegmentWords(cc, segs[0]), ExtractWords(cc, segs[1..]))
  }

  /** Token order is kept: the words of `a + b` are those of `a` followed by
      those of `b`, and an error in `a` comes first. */
  lemma {:induction false} TokensWordsAppend(cc: CharClasses, a: seq<JsonValue>, b: seq<JsonValue>)
    ensures TokensWords(cc, a + b) == Join(TokensWords(cc, a), TokensWords(cc, b))
  {
    if a != [] {
      var c := Contribution(TokenWord(cc, a[0]));
      assert (a + b)[0] == a[0];
      assert (a + b)[1..] == a[1..] + b;
      assert TokensWords(cc, a + b) == Join(c, TokensWords(cc, a[1..] + b));
      TokensWordsAppend(cc, a[1..], b);
      JoinAssociative(c, TokensWords(cc, a[1..]), TokensWords(cc, b));
    } else {
      assert a + b == b;
      JoinEmptyLeft(TokensWords(cc, b));
    }
  }

  /** A single token contributes exactly its own word, or nothing. */
  lemma SingleToken(cc: CharClasses, t: JsonValue)
    ensures TokensWords(cc, [t]) == Contribution(TokenWord(cc, t))
  {
    assert [t][1..] == [];
    JoinEmpty(Contribution(TokenWord(cc, t)));
  }

  /** Segment order is kept: the words of `a + b` are those of `a` followed
      by those of `b`, and an error in `a` comes first. */
  lemma {:induction false} ExtractWordsAppend(cc: CharClasses, a: seq<JsonValue>, b: seq<JsonValue>)
    ensures ExtractWords(cc, a + b) == Join(ExtractWords(cc, a), ExtractWords(cc, b))
  {
    if a != [] {
      assert (a + b)[0] == a[0];
      assert (a + b)[1..] == a[1..] + b;
      ExtractWordsAppend(cc, a[1..], b);
      JoinAssociative(SegmentWords(cc, a[0]), ExtractWords(cc, a[1..]), ExtractWords(cc, b));
    } else {
      assert a + b == b;
      JoinEmptyLeft(ExtractWords(cc, b));
    }
  }

  /** A single segment contributes exactly its own words. */
  lemma SingleSegment(cc: CharClasses, s: JsonValue)
    ensures ExtractWords(cc, [s]) == SegmentWords(cc, s)
  {
    assert [s][1..] == [];
    JoinEmpty(SegmentWords(cc, s));
  }

  /** ASCII instances of the two classes, for concrete examples. */
  predicate AsciiWord(c: char) {
    ('a' <= c <= 'z') || ('A' <= c <= 'Z') || ('0' <= c <= '9') || c == '_'
  }

  predicate AsciiSpace(c: char) {
    c == ' ' || c == '\t' || c == '\n' || c == '\r'
  }

  const AsciiClasses: CharClasses := CharClasses(AsciiWord, AsciiSpace)

  lemma HelloStrips()
    ensures Strip(AsciiClasses, " Hello,") == "Hello,"
  {
    var cc := AsciiClasses;
    assert " Hello,"[1..] == "Hello,";
    assert LeadingSpaces(cc, " Hello,") == 1;
    assert ContentEnd(cc, " Hello,") == 7;
  }

  lemma HelloFilters()
    ensures Filter(AsciiClasses, "Hello,") == "Hello"
  {
    var cc := AsciiClasses;
    assert "Hello," == "Hello" + ",";
    FilterAppend(cc, "Hello", ",");
    assert forall i :: 0 <= i < |"Hello"| ==> Kept(cc, "Hello"[i]);
    FilterKeepsKept(cc, "Hello");
    assert ","[1..] == [];
    assert Filter(cc, ",") == [];
  }

  lemma HelloRounds()
    ensures RoundMillis(0.1234) == 0.123
    ensures RoundMillis(0.4567) == 0.457
  {
  }

  /** The token of the example below. */
  function HelloToken(): JsonValue {
    JObject(map["word" := JString(" Hello,"), "start" := JReal(0.1234), "end" := JReal(0.4567)])
  }

  lemma HelloTokenWord()
    ensures TokenWord(AsciiClasses, HelloToken()) == Ok(Some(Word("Hello", JReal(0.123), JReal(0.457))))
  {
    var m := HelloToken().fields;
    HelloStrips();
    HelloFilters();
    assert CleanText(AsciiClasses, " Hello,") == "Hello";
    assert RawText(m) == Ok(" Hello,");
    HelloRounds();
    assert Timestamp(m, "start") == Ok(JReal(0.123));
    assert Timestamp(m, "end") == Ok(JReal(0.457));
  }

  /** The token " Hello," timed 0.1234 to 0.4567 becomes the word "Hello"
      timed 0.123 to 0.457. */
  lemma HelloExample()
    ensures ExtractWords(AsciiClasses, [JObject(map["words" := JArray([HelloToken()])])])
            == Ok([Word("Hello", JReal(0.123), JReal(0.457))])
  {
    var cc := AsciiClasses;
    var t := HelloToken();
    var seg := JObject(map["words" := JArray([t])]);
    HelloTokenWord();
    SingleToken(cc, t);
    assert SegmentWords(cc, seg) == TokensWords(cc, [t]);
    SingleSegment(cc, seg);
  }
}
