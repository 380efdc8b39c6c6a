# audio_align in Dafny

A model of the logic of the audio_align command-line tool that sits between the
speech-recognition model and the JSON file it writes:

- the alignment record of `utils/json_utils.py`: the structural validator
  `validate_alignment_data`, the field projection done by `export_to_json`, the
  validate-then-return step of `load_alignment_json`, and the fail-fast timing
  check `verify_timing_accuracy`;
- the `align` command of `app.py` from the transcription on: the default output
  path, the loop that flattens Whisper segments into word records (strip, remove
  punctuation, drop empty tokens, round timestamps), and the record it exports.

Values are an immutable `JsonValue` datatype (null, bool, int, real, string,
array, object as a map). Python exceptions become `Result` errors carrying a
`Fault` (KeyError, TypeError, failed validation, unreadable file). The file
system is a map from path to parsed content, so export and load are pure
functions: export returns the new file system, and load reads from it. Timestamps are exact reals.

Files, one module each:

| file | module | models |
|---|---|---|
| `wrappers.dfy` | `Wrappers` | `Option`, `Result` |
| `json.dfy` | `Json` | `JsonValue`, `Fault`, Python's `isinstance(x, (int, float))`, `d[key]`, `for` over a value, truthiness, `abs` |
| `alignment_record.dfy` | `AlignmentRecord` | validation, export projection, export and load |
| `timing_check.dfy` | `TimingCheck` | `verify_timing_accuracy` and a declarative reference for it |
| `word_extraction.dfy` | `WordExtraction` | segment and token processing of `align` |
| `align_command.dfy` | `AlignCommand` | output path, record construction, the `align` pipeline |

Modelling choices:

- A JSON boolean counts as a number, as `isinstance(True, (int, float))` does in Python.
- An element of `words` or `phonemes` that is not a dict fails validation. Python
  would test `key in element`: on a list that is a membership test, on a string
  a substring test, and either may go on to raise TypeError instead of
  returning False. At export and load both outcomes are the same wrapped error.
- A top-level loaded value that is not an object fails to load (Python returns
  False or raises; either way the loader raises).
- In the timing check, comparing or subtracting anything but numbers is a
  TypeError. Python would also compare two strings or two lists; this only
  matters for records that do not validate.
- `for x in v` over a non-list: a string or dict yields `str` items, and the
  first `x["start"]` or `x.get(...)` raises, so only the empty string and the
  empty dict get through with no iterations.
- A segment that is not a dict makes word extraction fail. Python would test
  `"words" in segment` as a membership or substring test and could skip it.
- `\w` and `\s` are parameters (`CharClasses`), since Python's classes are
  Unicode tables; `str.strip()` uses the same whitespace class as `\s`. The
  concrete examples use an ASCII instance.
- `round(x, 3)` is exact round-half-to-even of `x * 1000` on reals; `round` of an
  int returns it unchanged and of a bool returns 0 or 1.
- `verify_timing_accuracy` reads `phonemes` unconditionally, so a record
  without the key raises KeyError once its words pass. The model reproduces
  this (`TimingCheck.VerifyTiming`); the corrected check that treats a missing
  key as no phonemes is `TimingCheck.VerifyTimingOptionalPhonemes`. The
  corrected reading rests on the code itself: `validate_alignment_data` treats
  `phonemes` as optional (utils/json_utils.py:37-38) and `align` never writes
  it (app.py:91-95). The model's `VerifyTiming` follows the code as written.

## Model

| member | source | states |
|---|---|---|
| AlignmentRecord.EntriesValidIffAll | utils/json_utils.py:29-35 | the early-exit loop over entries returns true exactly when every entry is a dict with its tag, `start` and `end`, both numeric |
| AlignmentRecord.ValidateMeans | utils/json_utils.py:11-47 | a record is valid exactly when `words` is present and a list of valid word entries, and `phonemes`, only when present and a list, holds valid phoneme entries |
| AlignmentRecord.BadWordInvalidates | utils/json_utils.py:29-35 | one word missing `text`, `start` or `end`, or with a non-numeric `start` or `end`, makes the record invalid |
| AlignmentRecord.NonListPhonemesIgnored | utils/json_utils.py:37-45 | a `phonemes` value that is not a list gives the same verdict as no `phonemes` key |
| AlignmentRecord.OtherKeysIgnored | utils/json_utils.py:11-47 | keys other than `words` and `phonemes` never change the verdict |
| AlignmentRecord.EmptyWordsValid | utils/json_utils.py:22-47 | `{"words": []}` is valid |
| AlignmentRecord.Project | utils/json_utils.py:78-91 | the exported dict has `words` always, each of `phonemes`, `transcript`, `whisper_segments` exactly when the input has it, every value unchanged, and no other key |
| AlignmentRecord.ProjectIdempotent | utils/json_utils.py:78-91 | projecting an exported dict again changes nothing |
| AlignmentRecord.ProjectKeepsValidity | utils/json_utils.py:11-47 | the projection is valid exactly when its input is |
| AlignmentRecord.Export | utils/json_utils.py:73-98 | with writes that cannot fail, export fails exactly when validation fails, and then leaves every file as it was; otherwise it overwrites the destination with the projection, which is valid |
| AlignmentRecord.Load | utils/json_utils.py:114-124 | load returns the parsed value unchanged exactly when the file exists, parses and validates; a missing or unparseable file and an invalid value are errors |
| AlignmentRecord.ExportThenLoad | utils/json_utils.py:73-124 | loading what a successful export wrote returns the projected record, with the original `words` |
| AlignmentRecord.LoadThenExport | utils/json_utils.py:73-124 | a loaded record exports without error, and exporting its projection writes the same dict |
| TimingCheck.SpanOf | utils/json_utils.py:146 | an entry yields a timing exactly when it is a dict with numeric `start` and `end`, and the timing holds their values |
| TimingCheck.ScanNoneIff | utils/json_utils.py:145-161 | the loop passes exactly when the body passes at every index |
| TimingCheck.ScanFindsFirst | utils/json_utils.py:145-161 | a failing loop reports the failure of the lowest failing index, every earlier index having passed |
| TimingCheck.WordStepsIff | utils/json_utils.py:145-156 | every word step passes exactly when all words have numeric timings, each starts before it ends, and each starts within one second of the previous end |
| TimingCheck.PhonemeStepsIff | utils/json_utils.py:159-161 | every phoneme step passes exactly when all phonemes have numeric timings and each starts before it ends |
| TimingCheck.VerifyTimingIff | utils/json_utils.py:127-163 | the check returns True exactly when the words are numeric, ordered and at most one second apart and the phonemes are present, numeric and ordered |
| TimingCheck.InvalidWordIsFirst | utils/json_utils.py:145-147 | a start/end failure names the lowest offending word; every earlier word passed both checks and this word starts at or after its end |
| TimingCheck.LargeGapIsFirst | utils/json_utils.py:149-156 | a gap failure names the first offending pair (i - 1, i); earlier words passed, word i starts before it ends, and the gap is start[i] - end[i - 1], more than one second either way |
| TimingCheck.InvalidPhonemeIsFirst | utils/json_utils.py:158-161 | a phoneme failure comes only after all words passed, and names the lowest offending phoneme |
| TimingCheck.MissingPhonemesRaises | utils/json_utils.py:159 | a record without `phonemes` never passes, and once its words pass the check raises KeyError for `phonemes` |
| TimingCheck.VerifyTimingOptionalPhonemes | utils/json_utils.py:158-161 | the corrected check agrees with the original when `phonemes` is present and, without it, passes exactly when the words pass |
| TimingCheck.GapOfOneSecondPasses | utils/json_utils.py:153 | a gap of exactly 1.0 second passes |
| TimingCheck.GapExamples | utils/json_utils.py:149-156 | a gap of 1.5 seconds fails naming words 0 and 1 with gap 1.5; a gap of 0.9 passes |
| TimingCheck.ValidEntriesNeverRaise | utils/json_utils.py:145-161 | on entries that pass validation, no loop step raises |
| TimingCheck.ValidatedRecordRaisesOnlyOnPhonemes | utils/json_utils.py:145-161 | on a validated record the check raises only after every word passed, and then only because `phonemes` is missing (KeyError) or is not a list (TypeError); every other failure is a timing verdict |
| TimingCheck.PhonemesHaveNoGapCheck | utils/json_utils.py:158-161 | phonemes a minute apart pass |
| WordExtraction.LeadingSpaces | app.py:77 | the count of leading characters that are all whitespace, stopping at the first that is not |
| WordExtraction.ContentEnd | app.py:77 | the index after which every character is whitespace, just past the last character that is not |
| WordExtraction.Strip | app.py:77 | the stripped text is the slice from the first to the last non-whitespace character: everything outside it is whitespace, it neither starts nor ends with whitespace, and it is empty exactly when the token is all whitespace |
| WordExtraction.Filter | app.py:81 | the filtered text holds only word characters, whitespace, `'` and `-`, and is empty exactly when the input holds none of them |
| WordExtraction.FilterAppend | app.py:81 | filtering a concatenation filters each part and keeps their order |
| WordExtraction.FilterKeepsKept | app.py:81 | text made only of kept characters passes the filter unchanged |
| WordExtraction.FilterIdempotent | app.py:81 | filtering twice is filtering once |
| WordExtraction.RoundHalfEven | app.py:86-87 | the integer nearest to a real, at most one half away, and even when exactly one half away |
| WordExtraction.RoundMillis | app.py:86-87 | rounding moves a time by at most half a millisecond, yields a whole number of milliseconds, and on a tie yields an even number of them |
| WordExtraction.RoundMillisTiesToEven | app.py:86-87 | on ties exact in binary, and so ties for doubles too, the even millisecond wins: 0.0625 and -0.0625 round to 0.062 and -0.062, 0.1875 to 0.188 |
| WordExtraction.RoundMillisIdempotent | app.py:86-87 | rounding a rounded time changes nothing |
| WordExtraction.Timestamp | app.py:86-87 | a missing `start` or `end` reads as 0; otherwise the read succeeds exactly on a number and yields a number |
| WordExtraction.Rounded | app.py:86-87 | rounding succeeds exactly on numbers and yields a number; an int is unchanged |
| WordExtraction.TokenWord | app.py:76-89 | a token is dropped exactly when stripping and filtering leave its text empty; a missing `word` key drops it; an emitted word has non-empty, filtered text and the token's rounded timestamps, 0 when missing; a non-dict token raises |
| WordExtraction.TokensWords | app.py:76-89 | a segment's tokens yield at most one word each, every one well formed |
| WordExtraction.SegmentWords | app.py:75-89 | a segment without `words` or with a falsy value yields no words; a list is processed token by token; at most one word per token |
| WordExtraction.ExtractWords | app.py:73-89 | the number of words is at most the total number of tokens, and every word is well formed |
| WordExtraction.TokensWordsAppend | app.py:76 | words come out in token order, and the first failing token decides the error |
| WordExtraction.SingleToken | app.py:76-89 | a one-token list yields exactly that token's word or nothing |
| WordExtraction.ExtractWordsAppend | app.py:74 | words come out in segment order, and the first failing segment decides the error |
| WordExtraction.SingleSegment | app.py:74-89 | a one-segment list yields exactly that segment's words |
| WordExtraction.HelloExample | app.py:73-89 | the token " Hello," timed 0.1234 to 0.4567 becomes the word "Hello" timed 0.123 to 0.457 |
| AlignCommand.RFind | app.py:55 | the last index of a character, or -1 when it does not occur |
| AlignCommand.Stem | app.py:55 | the stem is a prefix of the name; when shorter, it is followed by a dot that is neither first nor last and after which no dot occurs |
| AlignCommand.StemOfSuffixed | app.py:55 | adding a dot-free suffix to a non-empty base and taking the stem gives the base back |
| AlignCommand.StemOfUnsuffixed | app.py:55 | a name whose only dots are at its ends is its own stem |
| AlignCommand.DefaultOutput | app.py:53-56 | the default output is `outputs/<name>.json`, whose stem is the audio file's stem |
| AlignCommand.BuildRecord | app.py:91-95 | the record has exactly the keys `transcript`, `words` and `whisper_segments`, and no `phonemes` |
| AlignCommand.RecordIsExportable | app.py:91-95 | the record built from emitted words validates and survives the export projection whole |
| AlignCommand.RecordFailsTimingCheck | app.py:91-95 | the record never passes the timing check; with well-timed words the check raises KeyError for `phonemes` |
| AlignCommand.RecordPassesOptionalPhonemesCheck | app.py:91-95 | under the corrected timing check the record passes exactly when its words are well timed |
| AlignCommand.Align | app.py:43-110 | with writes that cannot fail, the command fails exactly when word extraction fails, and then writes nothing; otherwise it writes the built record to the `--output` path when given and to `outputs/<stem>.json` otherwise |
| AlignCommand.AlignThenLoad | app.py:91-102 | when word extraction succeeds the command succeeds, and what it writes loads back as the record it built, one word entry per emitted word |

## Left out

- `utils/whisper_utils.py`: loading and running the Whisper model and writing a plain transcript are calls into an external library and the file system; the model takes the transcript text and segments as input.
- File I/O and JSON text: `open`, `json.dump` with two-space indentation and unescaped non-ASCII, and `json.load` are not modelled; files hold parsed values, and encoding then decoding is taken to be lossless. JSON `NaN` and `Infinity` are not modelled.
- Floating point: timestamps are exact reals. Python subtracts and compares IEEE doubles, so near the one-second boundary the two can differ (`2.2 - 1.2` is 1.0000000000000002 in doubles, so Python reports a gap there that the model passes), and `round` acts on the binary value, so decimal ties may round the other way.
- AlignmentRecord.Export: writing never fails in the model. Python's `open(..., "w")` raises when the parent directory of `--output` is missing, the path is a directory, or permission is denied (utils/json_utils.py:70-71, 94-95), and `align` then exits with status 1 (app.py:108-110); the file system here is a map, so only validation can make export fail.
- AlignCommand.Align: for the same reason the command never fails after word extraction succeeds; a failed write is not modelled.
- Dictionary key order: objects are maps, so the order of keys in the written file is not modelled.
- Command-line plumbing: argument parsing, the `exists=True` and `exists()` checks, creating `outputs/`, progress messages, the exit codes and the `version` command.
- Error messages and the wrapping of exceptions into a generic `Exception`: only the kind of fault and the offending index or pair are kept.
- Path parsing: a path is its list of components; `Path.stem` follows the rule of Python 3.12's `pathlib`.
- Unicode character classes: `\w` and `\s` are parameters, not Unicode tables.

## Findings

| source | as written | input that shows it | evidently intended | confidence | as-written member | corrected member |
|---|---|---|---|---|---|---|
| utils/json_utils.py:159 | the timing check indexes `alignment_data["phonemes"]` without checking the key, although validation treats `phonemes` as optional and `align` never writes it | `{"words": []}`, or any record `align` builds whose words pass the word checks: it validates, but the check raises KeyError | a record without `phonemes` has no phonemes to check | high that it raises, medium on intent; not executed | TimingCheck.MissingPhonemesRaises | TimingCheck.VerifyTimingOptionalPhonemes |
