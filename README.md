# A-CAT scoring core in Dafny

A-CAT rates recordings of second-language speech. For each audio file it
runs the Praat syllable-nuclei script and reads the TextGrid next to the
file. It reduces the two tables and the TextGrid to seven acoustic
features: speech rate, pauses, F0 range, the log standard deviation of
syllable durations, and three formant coefficients. Two fixed linear formulas
turn these into a comprehensibility score and a native-likeness score. A
desktop table keeps one row per loaded file and starts one worker per
analysis.

This project models that core:

- `numbers.dfy` (`Numbers`): Python's `None`, exceptions as `Result`, and
  floats as `Num = NaN | Val(real)` with NaN-propagating arithmetic.
- `paths.dfy` (`Paths`): the part of POSIX `pathlib` the code relies on:
  `absolute`, `str`, `name`, `suffix`, `stem` and `with_suffix`.
- `japanese_scoring.dfy` (`JapaneseScoring`): the feature reduction and
  scoring of `praat_score_judging_japanese.py`. Praat's two tables, the
  TextGrid files and the working directory are inputs (`Environment`).
  Mean, sample standard deviation and `log10` are function values (`Stats`)
  that the model does not interpret.
- `audio_file.dfy` (`AudioFile`): the `PraatScore` record, its
  serialisation, and the properties of `AudioFileInfo`.
- `judge_score.dfy` (`JudgeScore`): the `LanguageModel` enumeration and the
  dispatcher.
- `content_view.dfy` (`ContentView`): `ContentTable` as a class over the
  list of records and the rows of the Qt table. The user's reply to the
  reanalysis dialog and the file system's answers are parameters. Workers the
  table starts are recorded in `pending`. Running one is a separate method.

The syllable label differs between the two inputs, and the model follows the
code. In the segment table only the type `"?"` marks a syllable. In the
TextGrid both `"syll"` and `""` do.

Two behaviours of the code are kept as written:

- The worker calls `generate_praat_score(data.path)` without the required
  `model` argument. Every worker therefore ends in `RuntimeError` caused by
  `TypeError`, and no record ever receives a score (`RunStartedWorker`).
- A widget that no longer exists has row index -1. `delete_row(-1)` then
  removes no Qt row but pops the last record (`HandleDelete`).

Missing files are handled in two places. Before starting a worker the table
asks whether the audio path exists and starts none when it does not
(src/acat/ui/content_view.py:115-121). The scoring function itself opens the
TextGrid next to the audio file, and when that file does not exist the reader
raises FileNotFoundError
(src/acat/backend/praat_score_judging_japanese.py:112-116), modelled as
`FileNotFound` carrying the path's text.

## Model

| member | source | states |
|---|---|---|
| `Numbers.ArithmeticPropagatesNaN` | src/acat/backend/praat_score_judging_japanese.py:155-177 | a sum, difference or scaled value is NaN exactly when an operand is; a quotient with a NaN operand is NaN |
| `Paths.Absolute` | src/acat/backend/praat_score_judging_japanese.py:23 | a rooted path is kept; a relative path is appended to the working directory |
| `Paths.Name` | src/acat/ui/audio_file.py:60-62 | the last component, and "" exactly when there is no component |
| `Paths.Suffix` | src/acat/ui/audio_file.py:56-58 | "" exactly when the name has no inner final dot; otherwise a dot plus a dot-free tail that ends the name |
| `Paths.Stem` | src/acat/backend/praat_score_judging_japanese.py:27 | the stem followed by the suffix is the name |
| `Paths.WithSuffix` | src/acat/backend/praat_score_judging_japanese.py:27 | ValueError exactly for a bad suffix or an empty path; otherwise only the last component changes, to stem + suffix |
| `Paths.ToString` | src/acat/backend/praat_score_judging_japanese.py:23 | a well-formed path prints as non-empty text that starts with "/" exactly when it is rooted |
| `Paths.ToStringInjective` | src/acat/backend/praat_score_judging_japanese.py:112 | two well-formed paths with the same text are the same path |
| `Paths.JoinInjective` | src/acat/backend/praat_score_judging_japanese.py:23 | different component lists give different path strings |
| `JapaneseScoring.FileSpec` | src/acat/backend/praat_score_judging_japanese.py:21-23 | the string is the absolute path followed by one `*`, and there is no other `*` when no component has one |
| `JapaneseScoring.FileSpecInjective` | src/acat/backend/praat_score_judging_japanese.py:21-23 | equal file specs come from the same absolute path |
| `JapaneseScoring.TextGridPath` | src/acat/backend/praat_score_judging_japanese.py:26-27 | an error only for the root; otherwise same directory, last name = stem + ".auto.TextGrid" |
| `JapaneseScoring.TextGridName` | src/acat/backend/praat_score_judging_japanese.py:26-27 | the TextGrid name has suffix ".TextGrid" and stem = audio stem + ".auto" |
| `JapaneseScoring.TextGridPathOfRelative` | src/acat/backend/praat_score_judging_japanese.py:26-27 | a relative `dir/name` becomes `<cwd>/dir/<stem of name>.auto.TextGrid` |
| `JapaneseScoring.ExampleStem` | src/acat/backend/praat_score_judging_japanese.py:27 | "x.wav" gets the TextGrid name "x.auto.TextGrid" |
| `JapaneseScoring.SyllableRows` | src/acat/backend/praat_score_judging_japanese.py:76 | every kept row has type "?", and every row with type "?" is kept |
| `JapaneseScoring.ToNum` | src/acat/backend/praat_score_judging_japanese.py:78-79 | "--undefined--" becomes NaN, a number stays itself, any other text raises |
| `JapaneseScoring.ConvertColumn` | src/acat/backend/praat_score_judging_japanese.py:79 | `astype(float)` fails exactly when some cell cannot be converted; otherwise converts cell by cell |
| `JapaneseScoring.Min` | src/acat/backend/praat_score_judging_japanese.py:91 | NaN exactly for no values; otherwise a member that is at most every value |
| `JapaneseScoring.Max` | src/acat/backend/praat_score_judging_japanese.py:92 | NaN exactly for no values; otherwise a member that is at least every value |
| `JapaneseScoring.Coefficient` | src/acat/backend/praat_score_judging_japanese.py:98-100 | log10 of std / mean when both are numbers and the mean is non-zero; NaN whenever either is NaN or the mean is zero |
| `JapaneseScoring.SegmentAnalysis` | src/acat/backend/praat_score_judging_japanese.py:72-101 | fails exactly when a syllable row holds unconvertible text; otherwise rangef0 = max − min of F0 and coeffN = log10(sd/mean) of FN over the defined syllable values |
| `JapaneseScoring.UnconvertibleInKept` | src/acat/backend/praat_score_judging_japanese.py:76-79 | a conversion error happens exactly when a syllable row holds bad text; other rows never raise |
| `JapaneseScoring.ValuesOfConverted` | src/acat/backend/praat_score_judging_japanese.py:76-92 | filtering, converting and skipping NaN gives the one-pass reference values |
| `JapaneseScoring.NonSyllableRowIgnored` | src/acat/backend/praat_score_judging_japanese.py:76-95 | inserting a non-syllable row anywhere leaves the segment features unchanged |
| `JapaneseScoring.SyllableRowsOnlyExample` | src/acat/backend/praat_score_judging_japanese.py:76-100 | with 3 syllable rows (F1 400, 420, 440) and 2 extreme other rows, only the 3 rows reach the statistics |
| `JapaneseScoring.RangeNonNegative` | src/acat/backend/praat_score_judging_japanese.py:97 | the F0 range is NaN or non-negative |
| `JapaneseScoring.StripShape` | src/acat/backend/praat_score_judging_japanese.py:103 | a stripped name is the middle of the original, and only whitespace was cut |
| `JapaneseScoring.StripIdempotent` | src/acat/backend/praat_score_judging_japanese.py:103 | stripping twice is stripping once |
| `JapaneseScoring.NormalizeColumn` | src/acat/backend/praat_score_judging_japanese.py:103-104 | the name without surrounding whitespace, renamed to "speechrate" exactly when it strips to the engine's speech-rate name (or already is "speechrate") |
| `JapaneseScoring.NormalizedColumns` | src/acat/backend/praat_score_judging_japanese.py:103-104 | every header name normalised, in place, none added or dropped |
| `JapaneseScoring.NormalizeColumnIdempotent` | src/acat/backend/praat_score_judging_japanese.py:103-104 | normalising an already normalised name changes nothing |
| `JapaneseScoring.ColumnIndex` | src/acat/backend/praat_score_judging_japanese.py:105-106 | KeyError exactly for a missing column; otherwise the position of that name, the first one (header names are taken to be unique after normalisation, see "Left out") |
| `JapaneseScoring.SummaryAnalysis` | src/acat/backend/praat_score_judging_japanese.py:103-106 | succeeds exactly when npause, nrFP and speechrate exist after normalisation; pauses = npause + nrFP row by row |
| `JapaneseScoring.PausesExample` | src/acat/backend/praat_score_judging_japanese.py:103-106 | 3 pauses and 1 filled pause give 4, with padded and renamed headers |
| `JapaneseScoring.SdSyllDur` | src/acat/backend/praat_score_judging_japanese.py:118-145 | IndexError exactly when there are fewer than three tiers; otherwise log10 of the std of the syllable durations of the third tier |
| `JapaneseScoring.CollectColumns` | src/acat/backend/praat_score_judging_japanese.py:120-127 | the three lists hold the start, end and label of each interval, in order |
| `JapaneseScoring.DurationsOfCollected` | src/acat/backend/praat_score_judging_japanese.py:129-140 | end − start over the collected columns, keeping "syll" or "", equals the reference durations |
| `JapaneseScoring.AnalyzeTextGrid` | src/acat/backend/praat_score_judging_japanese.py:111-147 | the append loop computes exactly `SdSyllDur` |
| `JapaneseScoring.OnlyThirdTierRead` | src/acat/backend/praat_score_judging_japanese.py:118 | grids that agree on the third tier give the same result |
| `JapaneseScoring.NonSyllableIntervalIgnored` | src/acat/backend/praat_score_judging_japanese.py:138-140 | an interval with another label never changes the durations |
| `JapaneseScoring.Comprehensibility` | src/acat/backend/praat_score_judging_japanese.py:155-165 | NaN exactly when some feature is NaN; with `ScoresAreLinear`, 2.138 plus the comprehensibility weights times the features |
| `JapaneseScoring.Nativelikeness` | src/acat/backend/praat_score_judging_japanese.py:167-177 | NaN exactly when some feature is NaN; with `ScoresAreLinear`, -0.537 plus the native-likeness weights times the features |
| `JapaneseScoring.ScoresAreLinear` | src/acat/backend/praat_score_judging_japanese.py:155-177 | both scores equal intercept + fixed weights · features, and are NaN if any feature is NaN |
| `JapaneseScoring.ScoresNaNIff` | src/acat/backend/praat_score_judging_japanese.py:155-177 | a score is NaN exactly when one of the seven features is |
| `JapaneseScoring.LiteralScores` | src/acat/backend/praat_score_judging_japanese.py:155-177 | features (4.5, 2, 50, −1.2, −0.3, −0.25, −0.1) give 10.22595 and 8.4831 |
| `JapaneseScoring.Score` | src/acat/backend/praat_score_judging_japanese.py:179-196 | the record holds comp, native, then speechrate, pauses, rangef0, sdsylldur, coeff1, coeff2, coeff3 |
| `JapaneseScoring.Combine` | src/acat/backend/praat_score_judging_japanese.py:153 | row 0 of the concatenation: the first summary row (NaN when there is none) beside the TextGrid and segment features |
| `JapaneseScoring.GenerateJapanese` | src/acat/backend/praat_score_judging_japanese.py:150-196 | a record is produced exactly when both tables reduce, the TextGrid exists and has a third tier; its features are the first summary row's speech rate and pauses, the third tier's sdsylldur and the syllable rows' rangef0 and coefficients, and its scores are the two formulas over them; otherwise the first failing step's error, FileNotFound for a missing TextGrid and `SdSyllDur`'s IndexError for one with too few tiers |
| `JapaneseScoring.GenerateJapaneseSyllableRowsOnly` | src/acat/backend/praat_score_judging_japanese.py:76-100 | for the example segment table, the record's rangef0 is 20 and its coefficients are over the three syllable rows only |
| `AudioFile.AllData` | src/acat/ui/audio_file.py:24-37 | nine fields, the two scores first |
| `AudioFile.FromPositional` | src/acat/ui/audio_file.py:10-22 | the constructor accepts exactly nine positional values |
| `AudioFile.AllDataRoundTrip` | src/acat/ui/audio_file.py:10-37 | `all_data` and the positional constructor invert each other, so the field order is fixed |
| `AudioFile.AllDataOrNone` | src/acat/ui/audio_file.py:39-44 | always nine entries: all `None` without a record, otherwise the record's fields in order |
| `AudioFile.ScoreTextOf` | src/acat/ui/audio_file.py:84-94 | "N/A" exactly for `None` or 0.0; otherwise the number |
| `AudioFile.AudioFileInfo.FileName` | src/acat/ui/audio_file.py:60-62 | the last path component |
| `AudioFile.AudioFileInfo.Extension` | src/acat/ui/audio_file.py:56-58 | the file name's final dot-suffix, with the dot, or "" |
| `AudioFile.AudioFileInfo.Comprehensibility` | src/acat/ui/audio_file.py:72-76 | `None` exactly without a score; otherwise the score's field |
| `AudioFile.AudioFileInfo.Nativelikeness` | src/acat/ui/audio_file.py:78-82 | `None` exactly without a score; otherwise the score's field |
| `AudioFile.AudioFileInfo.ComprehensibilityText` | src/acat/ui/audio_file.py:84-88 | "N/A" exactly without a score or for a score of 0.0 |
| `AudioFile.AudioFileInfo.NativelikenessText` | src/acat/ui/audio_file.py:90-94 | "N/A" exactly without a score or for a score of 0.0 |
| `AudioFile.AudioFileInfo.FormattedScore` | src/acat/ui/audio_file.py:96-98 | "N/A" on both sides of the separator when there is no score |
| `AudioFile.Render` | src/acat/ui/audio_file.py:84-94 | "N/A" for a missing or falsy score, "nan" for NaN, otherwise the `:.5f` text of the number |
| `AudioFile.NaNAndZeroScores` | src/acat/ui/audio_file.py:84-94 | a NaN score shows as "nan"; a zero score shows as "N/A" |
| `JudgeScore.Name` | src/acat/backend/judge_score.py:8-9 | the one member's name and value is "Japanese" |
| `JudgeScore.FromValue` | src/acat/backend/judge_score.py:8-9 | lookup by value succeeds exactly for "Japanese" |
| `JudgeScore.MembersComplete` | src/acat/backend/judge_score.py:8-9 | the enumeration has one member, and looking it up by its value gives it back |
| `JudgeScore.GeneratePraatScore` | src/acat/backend/judge_score.py:12-18 | a missing model raises TypeError; Japanese delegates to the Japanese implementation; any other value raises ValueError("Unknown Language Model") |
| `JudgeScore.NoFallback` | src/acat/backend/judge_score.py:12-18 | a score is produced only for the Japanese model |
| `JudgeScore.ScoresFollowFormulas` | src/acat/backend/judge_score.py:15-16 | every produced score satisfies the two linear formulas |
| `ContentView.PyIndex` | src/acat/ui/content_view.py:208-211 | a Python index is valid exactly in −n..n−1; negative indices count from the end |
| `ContentView.MinusOneIsLast` | src/acat/ui/content_view.py:190-192 | index −1, returned for a vanished widget, reads the last row |
| `ContentView.PyIndexAliases` | src/acat/ui/content_view.py:208-210 | two indices reach the same row only when equal or n apart |
| `ContentView.RemoveAt` | src/acat/ui/content_view.py:198-200 | earlier elements keep their positions; later ones move down by one |
| `ContentView.RemoveAtMultiset` | src/acat/ui/content_view.py:200 | popping loses exactly the popped element |
| `ContentView.RemoveAppended` | src/acat/ui/content_view.py:110 | deleting the row just appended restores the list |
| `ContentView.AnalyzedIndices` | src/acat/ui/content_view.py:249-254 | at most one position per row, each a valid row position |
| `ContentView.AnalyzedIndicesAnalysed` | src/acat/ui/content_view.py:249-254 | every listed position is that of a row holding a score |
| `ContentView.AnalyzedIndicesIncreasing` | src/acat/ui/content_view.py:249-254 | positions are listed in table order, none twice |
| `ContentView.AnalyzedIndicesComplete` | src/acat/ui/content_view.py:249-254 | every row holding a score is listed |
| `ContentView.AnalyzedNames` | src/acat/ui/content_view.py:247-254 | one file name per analysed row, the names of those rows in table order |
| `ContentView.AnalyzedNamesEmpty` | src/acat/ui/content_view.py:230-254 | no name is listed, and so no confirmation asked, exactly when no row holds a score |
| `ContentView.RowOutcome` | src/acat/ui/content_view.py:115-133 | a worker starts exactly for an existing path that is not a directory |
| `ContentView.JobsUpTo` | src/acat/ui/content_view.py:225-228 | judging n rows starts at most n workers |
| `ContentView.JobsUpToTargets` | src/acat/ui/content_view.py:112-133 | each started worker is for one of the rows judged, analyses that row's own record, and that record's path is an existing file that is not a directory |
| `ContentView.JobsUpToOrdered` | src/acat/ui/content_view.py:227-228 | workers start in row order |
| `ContentView.JobsUpToComplete` | src/acat/ui/content_view.py:227-228 | every row with an existing file gets a worker |
| `ContentView.ConfirmReanalyze` | src/acat/ui/content_view.py:230-245 | true without asking for an empty list; otherwise the user's answer |
| `ContentView.ContentTable.constructor` | src/acat/ui/content_view.py:66-72 | an empty table with nothing selected |
| `ContentView.ContentTable.AddRow` | src/acat/ui/content_view.py:81-110 | the record is appended; earlier rows are unchanged; the new row shows its name and score texts and has a fresh action widget |
| `ContentView.ContentTable.AddRows` | src/acat/ui/content_view.py:177-179 | records are appended in iteration order, and each new row shows its record's file name and both score texts with a fresh action widget |
| `ContentView.ContentTable.GetRow` | src/acat/ui/content_view.py:208-219 | `data[i]` for every Python-valid index, negatives included; `None` only out of range |
| `ContentView.ContentTable.FindRowIndex` | src/acat/ui/content_view.py:190-196 | −1 for a vanished widget; otherwise the first row holding that exact widget, or `None` when no row does |
| `ContentView.ContentTable.DeleteRow` | src/acat/ui/content_view.py:198-200 | Qt drops row i only if it is a Qt row; `data` loses the element at the Python index, or IndexError leaves it unchanged |
| `ContentView.ContentTable.HandleDelete` | src/acat/ui/content_view.py:184-200 | a button's row k is removed from the Qt rows and `data[k]` is popped, or IndexError leaves `data` as it was once the Qt rows outnumber the records; a vanished widget pops the last record and keeps every Qt row; a widget in no row raises TypeError and changes nothing |
| `ContentView.ContentTable.OpenInfo` | src/acat/ui/content_view.py:184-206 | the row's record becomes the selected one and fills the popup; an index out of range, or the `None` of a widget in no row, raises TypeError and changes nothing |
| `ContentView.ContentTable.CheckIfAnalyzed` | src/acat/ui/content_view.py:247-258 | without an index, the analysed names; with one, a singleton or empty list; out of range raises AttributeError |
| `ContentView.ContentTable.JudgeRow` | src/acat/ui/content_view.py:112-133 | no worker for a missing path or a directory; otherwise one worker for this index and record; out of range raises AttributeError |
| `ContentView.ContentTable.JudgeScore` | src/acat/ui/content_view.py:184-223 | an analysed row is judged only if the user confirms, an unanalysed one directly; for the `None` of a widget in no row the confirmation lists every analysed row and, if accepted, TypeError is raised and no worker starts |
| `ContentView.ContentTable.JudgeAllScores` | src/acat/ui/content_view.py:225-228 | after one confirmation, rows 0 to len−1 are judged in order |
| `ContentView.ContentTable.UpdateScore` | src/acat/ui/content_view.py:135-146 | cells change only when the row still holds the very record analysed; the popup refreshes only for the selected record |
| `ContentView.RunWorker` | src/acat/ui/content_view.py:44-59 | a failure is rethrown as RuntimeError and stores nothing; a success stores the score and emits the job |
| `ContentView.RunStartedWorker` | src/acat/ui/content_view.py:50-57 | with no model argument every worker ends in RuntimeError caused by TypeError, and the record keeps its score |

## Left out

- Running Praat through parselmouth and parsing its output into tables
  (praat_score_judging_japanese.py:14-18, 30-64) are not modelled. They are
  calls into a foreign library, and the two tables arrive as inputs.
- The segment table's columns "type" and "F0" to "F3" are taken to exist.
  The KeyError pandas raises when one is missing is not modelled.
- Reading the TextGrid with praatio is not modelled. The reader is a foreign
  library, and the model takes the grid it would return.
- Mean, sample standard deviation and `log10` are not interpreted. They are
  floating-point library routines; the model checks only how they are used.
- IEEE rounding is not modelled: arithmetic is exact over the reals.
- `Numbers.Div`: a zero divisor gives NaN here. numpy gives inf for a
  positive numerator (a standard deviation is never negative), and `log10`
  of that is +inf, not NaN.
- Header names of the summary table are taken to be unique after stripping
  and renaming. When two columns normalise to the same name (" npause" and
  "npause", or "speechrate" beside the engine's speech-rate name), pandas
  selects all of them at praat_score_judging_japanese.py:105-106 and the
  result is a frame, not one column; `ColumnIndex` and `SummaryAnalysis`
  use the first such column instead.
- Number formatting (`:.5f`, `:.2f`) is a parameter of `Render` and
  `FormattedScore`. It is float formatting.
- `AudioFile.AudioFileInfo.FormattedScore` states only the no-score case. The
  other cases are the two texts joined by " | ", and their contracts carry
  the meaning.
- `audio_length`, `audio_length_str` and the pydub decoding in `__post_init__`
  are not modelled. They are external audio I/O.
- The `QThreadPool` dispatch and the weak reference in `RowWorker` are not
  modelled. They are concurrency and garbage collection; workers are recorded
  in `pending`, and a worker's record is taken to be alive.
- `ContentView.ContentTable.UpdateScore`: the popup test `self._selected() ==
  data` is dataclass equality in the source. The model uses object identity.
- The `print` of an error message in `RowWorker.run` before the exception is
  re-raised (content_view.py:53-56) is not modelled. It is console logging;
  `RunWorker` keeps the re-raised `RuntimeError`.
- `ContentView.ContentTable.JudgeRow`: the message boxes shown for a missing
  file, a directory or a bad index are not modelled. They are Qt
  presentation, and only the outcome is kept.
- The Qt presentation of the table is not modelled: alignment, column
  headers, widths and the audio-length cell. The other windows are not
  modelled either.
- The CSV export is not part of this model.
