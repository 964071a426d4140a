# shot-detect: the overlay reconciliation engine in Dafny

`shot_detect.py` detects shot changes (cut points) in a video with a remote
service. It writes the detected shots to `original_<model>.json` and then lets
a person correct them. The `correct` action writes an OVERLAY text file. The
file has a comment header and one line `keep <shot_id> <start> -> <end>` per
detected shot. The person edits the action words (`keep`, `edit`, `add`,
`mergeup`, `mergedown`, `delete`). When they are done, the tool reads the file
back in one pass and rebuilds the shot list.

This project models that pass and the text conventions around it:

- `wrappers.dfy` (`Wrappers`): the `Option` type.
- `pytext.dfy` (`PyText`): the Python built-ins the tool relies on.
  - `str.isspace()` with the Unicode whitespace set.
  - `strip()`, `split()`, `split(sep)` and `replace`.
  - `str(int)`, zero-padded integer formatting, and list indexing with negative indices.
- `shots.dfy` (`Shots`): a shot record. Timestamps are whole microseconds.
- `overlay.dfy` (`Overlay`): the overlay file the `correct` action writes, including the `:.6f` timestamp format.
- `reconcile.dfy` (`Correction`): the reconciliation loop.
  - The functions `Step` / `Run` / `Reconcile` specify the pass.
  - The method `Correct` is the loop itself. It has a cursor `ptr`, an output list whose last element `mergeup` rewrites, and the deferred-merge flag. It is proved equal to `Reconcile`.
- `reconcile_props.dfy` (`CorrectionProps`): what the pass guarantees.
  - Which lines are read.
  - What each action does to the cursor and the output.
  - The two merges.
  - The round trip of an unedited overlay.
  - Contiguity under `keep`/`mergeup`/`mergedown`.
- `timestamp.dfy` (`Timestamp`): `pts_to_timestamp`, the `H:MM:SS.f` timecode of the preview subtitles.
- `names.dfy` (`Names`): `get_folder_name`, plus the model-name escape into a file stem and the unescape back.

An error of the pass is a value of `Correction.Error`. Each one matches a line where the tool prints a message and exits, or lets an exception escape:

- a line that does not unpack into five tokens;
- an unknown action;
- `mergeup` with no output yet;
- `mergedown` on the last shot;
- an `IndexError` on the original list;
- a `float()` failure.

## Model

| member | source | states |
|---|---|---|
| PyText.IsSpace | shot_detect.py:176-183 | definition: the character set of `str.isspace()`, which both `strip()` and `split()` use |
| PyText.TrimStart | shot_detect.py:176-177 | `lstrip()` is no longer than the line and, unless empty, starts with a non-space; `TrimStartSlice` states what it removes |
| PyText.TrimStartSlice | shot_detect.py:176-177 | `lstrip()` is the suffix of the line after a prefix that is all whitespace |
| PyText.TrimEnd | shot_detect.py:176-177 | `rstrip()` is no longer than the line and, unless empty, ends with a non-space; `TrimEndSlice` states what it removes |
| PyText.TrimEndSlice | shot_detect.py:176-177 | `rstrip()` is the prefix of the line before a suffix that is all whitespace |
| PyText.Strip | shot_detect.py:176-177 | `strip()` neither starts nor ends with whitespace, is no longer than the line, and is empty exactly when the line is all whitespace |
| PyText.StripIsSlice | shot_detect.py:176-177 | `strip()` is the slice of the line between an all-whitespace prefix and an all-whitespace suffix |
| PyText.Split | shot_detect.py:183 | definition of `split()`: skip whitespace, take the longest run of non-whitespace, repeat; its meaning is stated by `SplitWordsAreTokens`, `SplitUnwords` and `SplitEmptyIffBlank` |
| PyText.SplitWordsAreTokens | shot_detect.py:183 | every word `split()` returns is non-empty and free of whitespace |
| PyText.SplitUnwords | shot_detect.py:183 | splitting tokens joined by single spaces gives the tokens back |
| PyText.SplitEmptyIffBlank | shot_detect.py:176-183 | `split()` gives no word exactly when `strip()` gives the empty string |
| PyText.SplitOn | shot_detect.py:127 | `split(sep)` yields at least one part and no part holds the separator; `JoinSplitOn` is its inverse |
| PyText.JoinSplitOn | shot_detect.py:127 | joining the parts of `split(sep)` with the separator gives the string back |
| PyText.Replace | shot_detect.py:18 | definition of `str.replace`, scanning left to right without overlaps; `ReplaceChar`, `ReplaceAbsent`, `ReplaceLeading` and `ReplaceFreePrefix` state its behaviour |
| PyText.ReplaceChar | shot_detect.py:18 | replacing a character by a string free of it removes every occurrence and makes the result longer by the length of the replacement minus one for each occurrence |
| PyText.ReplaceAbsent | shot_detect.py:18 | replacing a pattern that does not occur changes nothing |
| PyText.ReplaceFreePrefix | shot_detect.py:18 | replacement passes over a prefix without the pattern's first character unchanged |
| PyText.NatToString | shot_detect.py:27 | `str(n)`: non-empty decimal digits worth `n`, one digit exactly below 10, two digits from 10 to 99, no leading zero |
| PyText.ZeroPad | shot_detect.py:27 | `:02d`-style padding: decimal digits worth `n`, as long as `str(n)` or the width, whichever is more |
| PyText.PyIndex | shot_detect.py:189-221 | definition of list indexing `original_data['shots'][i]`, where a negative index counts from the end and `None` is the `IndexError` |
| Overlay.WholeSeconds | shot_detect.py:155 | definition of the text before the point of `:.6f`: an optional minus sign and the whole seconds |
| Overlay.Micros | shot_detect.py:155 | definition of the six digits after the point of `:.6f` |
| Overlay.WholeSecondsFields | shot_detect.py:155 | the whole-seconds text is non-empty, holds no point, starts with `-` exactly for a negative timestamp, and the rest is `str` of the whole seconds |
| Overlay.MicrosFields | shot_detect.py:155 | the fraction text is exactly six digits and holds no point |
| Overlay.FormatPts | shot_detect.py:155 | a printed `:.6f` timestamp is one whitespace-free token |
| Overlay.FormatPtsFields | shot_detect.py:155 | a printed timestamp splits at its point into signed whole seconds and exactly six fraction digits; together they give back the microsecond value |
| Overlay.OverlayLine | shot_detect.py:155 | definition of one `keep <shot_id> <start> -> <end>` line; `OverlayLineWords` and `OverlayLineFields` state its shape |
| Overlay.OverlayLineWords | shot_detect.py:155 | an overlay line starts with `k` and is its five fields `keep`, id, start, `->`, end joined by single spaces |
| Overlay.OverlayLineFields | shot_detect.py:155 | for an id with no whitespace, an overlay line splits into the five fields the loop unpacks: `keep`, id, start, `->`, end |
| Overlay.KeepLines | shot_detect.py:154-155 | definition of the `keep` lines, one per shot in order; what each line is made of is stated by `KeepLinesFields` |
| Overlay.KeepLinesFields | shot_detect.py:154-155 | there is one line per shot, and the line of every shot whose id has no whitespace starts with `k` and splits into `keep`, the id, the start, `->` and the end |
| Overlay.HeaderTexts | shot_detect.py:143-153 | definition: the texts of the 13 header lines as written, `None` for each blank line |
| Overlay.HeaderLine | shot_detect.py:143-153 | definition: a header text behind `# `, or an empty line |
| Overlay.OverlayHeader | shot_detect.py:143-153 | definition of the header, line by line; `CorrectionProps.HeaderLines` and `CorrectionProps.HeaderSkipped` state that the pass skips it |
| Overlay.OverlayFile | shot_detect.py:142-155 | definition of the whole file, header then `keep` lines; `CorrectionProps.AllKeepRoundTrip` is its round trip |
| Correction.IsSkipped | shot_detect.py:176-181 | definition of a skipped line; `CorrectionProps.LineFiltering` states what it means for the pass |
| Correction.Absorb | shot_detect.py:189-196 | definition of the line after a `mergedown`; `CorrectionProps.AbsorbAccounting`, `AbsorbValue` and `AbsorbCovers` state its effect |
| Correction.Literal | shot_detect.py:202-212 | definition of the shot an `edit` or `add` line builds, or the `float()` error |
| Correction.Apply | shot_detect.py:198-232 | definition of one action; `CorrectionProps.ApplyAccounting`, `ApplyMergeUp`, `ApplyMergeDown` and `ApplyCovers` state its effect |
| Correction.Step | shot_detect.py:175-232 | definition of one line of the pass; `CorrectionProps.StepAccounting`, `LineFiltering`, `MergeUpStep`, `MergeDownStep` and `StepCovers` state its effect |
| Correction.Run | shot_detect.py:175-232 | definition of the pass over a block of lines; `CorrectionProps.RunConcat`, `RunSkipsAll` and `RunCovers` state its properties |
| Correction.Reconcile | shot_detect.py:162-232 | definition of the pass from the start state; `Correct` implements it, and `CorrectionProps.AllKeepRoundTrip` and `ContiguityPreserved` state its properties |
| Correction.RunNext | shot_detect.py:175 | a line that succeeds hands its new state to the rest of the lines |
| Correction.RunStops | shot_detect.py:175-232 | a line that fails ends the pass with its error |
| Correction.TakeMergedDown | shot_detect.py:189-196 | the line after a `mergedown` emits the shot under the cursor with the absorbed shot's start, and advances and clears the flag; a missing index is an error |
| Correction.ApplyAction | shot_detect.py:198-232 | the `match action` block plus the shared `ptr += 1` compute exactly the state or error that `Apply` specifies |
| Correction.Correct | shot_detect.py:162-232 | the loop over the overlay lines returns exactly what the pass `Reconcile` specifies, error included |
| CorrectionProps.AbsorbAccounting | shot_detect.py:189-196 | resolving a pending mergedown appends one shot, keeps the earlier output, moves the cursor by one and clears the flag |
| CorrectionProps.ApplyAccounting | shot_detect.py:198-232 | an unknown action is an error. A successful action: advances the cursor by one (`add` by none); appends one shot for keep/edit/add and none otherwise; sets the flag exactly for mergedown; keeps every earlier output shot; only mergeup touches the last one. `keep` succeeds exactly when `original[ptr]` exists and appends it unchanged; `edit` and `add` succeed exactly when both timestamps parse and append the shot with the line's id and those timestamps |
| CorrectionProps.StepAccounting | shot_detect.py:175-232 | the same accounting for a whole overlay line, including a line that resolves a pending mergedown; a successful `keep` line appends `original[ptr]`, and a successful `edit` or `add` line appends the shot built from its id and parsed timestamps |
| CorrectionProps.LineFiltering | shot_detect.py:175-183 | a line leaves the state unchanged exactly when it is skipped; it is skipped exactly when it is all whitespace or its first raw character is `#`; any other line without five tokens stops the pass |
| CorrectionProps.IndentedCommentIsRead | shot_detect.py:176-181 | a `#` line with leading whitespace is not a comment: it is read and cannot leave the state unchanged |
| CorrectionProps.ApplyMergeUp | shot_detect.py:214-218 | the mergeup action on an empty output is an error, and with the cursor past the original list an index error; otherwise the cursor advances by one, the flag is clear, and the output keeps its length and every shot but the last, which keeps its id and start and takes the end of `original[ptr]` |
| CorrectionProps.MergeUpStep | shot_detect.py:214-218 | mergeup with empty output is an error. Otherwise the output keeps its length and every shot but the last; the last keeps its id and start and takes the end of `original[ptr]`. A missing `original[ptr]` is an error |
| CorrectionProps.ApplyMergeDown | shot_detect.py:219-225 | the mergedown action fails exactly when `original[ptr+1]` does not exist, and otherwise moves the cursor, emits nothing and sets the flag |
| CorrectionProps.MergeDownStep | shot_detect.py:219-225 | mergedown is an error exactly when `original[ptr+1]` does not exist; otherwise it emits nothing, moves the cursor and sets the flag |
| CorrectionProps.AbsorbValue | shot_detect.py:189-196 | with both shots present, the pending merge emits `original[ptr]` with `start_pts` of `original[ptr-1]` |
| CorrectionProps.MergeDownAbsorbsNext | shot_detect.py:189-225 | a mergedown followed by any five-token line, whatever its action, emits the next original shot stretched back to the start of the absorbed one |
| CorrectionProps.RunConcat | shot_detect.py:175 | processing two blocks of lines is processing the first and then the second from the state it leaves; an error in the first stops everything |
| CorrectionProps.TrailingMergeDownDropped | shot_detect.py:219-234 | a mergedown on the last line leaves the flag pending, and the result is the output from before it: the shot under the cursor is silently dropped |
| CorrectionProps.RunSkipsAll | shot_detect.py:175-181 | blank and comment lines leave the state unchanged |
| CorrectionProps.HeaderLines | shot_detect.py:143-153 | every header line is empty or starts with `#` |
| CorrectionProps.HeaderSkipped | shot_detect.py:143-181 | the pass skips every header line |
| CorrectionProps.KeepStep | shot_detect.py:199-200 | the `keep` line of shot `k`, read with the cursor at `k`, emits shot `k` and moves to `k+1` |
| CorrectionProps.KeepLinesRead | shot_detect.py:154-183 | the pass reads every `keep` line of a shot whose id has no whitespace: it is neither blank nor a comment and gives five fields |
| CorrectionProps.KeepLinesRun | shot_detect.py:154-200 | from shot `k` on, the `keep` lines re-emit the remaining shots in order |
| CorrectionProps.AllKeepRoundTrip | shot_detect.py:142-232 | for ids with no whitespace, an unedited overlay reconciles to exactly the original shot list |
| CorrectionProps.ContiguousAppend | shot_detect.py:199-200 | appending a shot that starts where the output ends keeps it contiguous |
| CorrectionProps.ContiguousSetLastEnd | shot_detect.py:218 | moving only the last shot's end keeps the output contiguous |
| CorrectionProps.AbsorbCovers | shot_detect.py:189-196 | resolving a pending mergedown keeps the output a gap-free cover of the original prefix it accounts for |
| CorrectionProps.ApplyCovers | shot_detect.py:198-232 | keep, mergeup and mergedown keep that cover and advance the cursor by one |
| CorrectionProps.StepCovers | shot_detect.py:175-232 | one line of a keep/mergeup/mergedown overlay keeps the cover; the cursor moves by one exactly when the line is read |
| CorrectionProps.RunCovers | shot_detect.py:175-232 | a successful pass over such an overlay keeps the cover, and its cursor ends advanced by the number of lines read |
| CorrectionProps.ContiguityPreserved | shot_detect.py:162-232 | for a contiguous original and an overlay of only keep/mergeup/mergedown that reconciles: the output is contiguous and starts at the original's first start; at most one line per original shot is read; with exactly one line per shot it also ends at the original's last end |
| Timestamp.PtsToTimestamp | shot_detect.py:20-27 | definition of `pts_to_timestamp` as written, on the whole seconds and the centisecond field; `TimestampFields`, `StampFields` and `UnpaddedFractionMisread` state what it prints |
| Timestamp.PaddedTimestamp | shot_detect.py:20-27 | definition of the timecode with the centiseconds padded to two digits; `PaddedFractionReading` states what it prints |
| Timestamp.ClockText | shot_detect.py:22-27 | definition of the `H:MM:SS` part; `ClockTextHasNoPoint` and `StampColons` state its shape |
| Timestamp.ClockTextHasNoPoint | shot_detect.py:22-27 | the `H:MM:SS` part holds no point |
| Timestamp.Clock | shot_detect.py:22-25 | minutes and seconds are below 60 and `h*3600 + m*60 + s` is the whole seconds |
| Timestamp.ClockUnique | shot_detect.py:22-25 | that decomposition is the only one with minutes and seconds below 60 |
| Timestamp.StampColons | shot_detect.py:27 | the timecode splits at `:` into the hours, the two-digit minutes, and the two-digit seconds followed by the point and the fraction |
| Timestamp.StampFraction | shot_detect.py:27 | the field after the timecode's last point is the fraction digits it was printed with |
| Timestamp.StampFields | shot_detect.py:27 | the timecode splits at `:` into three fields and its last field at `.` into two. Hours, two-digit minutes and two-digit seconds read back as the whole seconds; the fraction digits come back as given |
| Timestamp.TimestampFields | shot_detect.py:21-27 | the printed fraction field reads as the centisecond value, with one digit below 10 and two digits otherwise |
| Timestamp.UnpaddedFractionMisread | shot_detect.py:21-27 | as written, 1 to 9 centiseconds print one digit that reads as tenths: the same decimal value as ten times as many centiseconds |
| Timestamp.PaddedFractionReading | shot_detect.py:21-27 | with the fraction padded to two digits, the field always reads as exactly `cs` hundredths |
| Names.FolderName | shot_detect.py:17-18 | definition of `get_folder_name`; `FolderNameNoSlash`, `FolderNameGs` and `FolderNamePlain` state its behaviour |
| Names.FolderNameNoSlash | shot_detect.py:17-18 | a folder name has no `/` |
| Names.FolderNameGs | shot_detect.py:17-18 | a leading `gs://` becomes `gs--` in front of the folder name of the rest |
| Names.FolderNamePlain | shot_detect.py:17-18 | with no `gs://` in it, every `/` becomes `--`, adding one character per slash |
| Names.EscapeModel | shot_detect.py:103 | definition of `model.replace('/', '-')`; `ModelNameRoundTrip` and `EscapeCollides` state its behaviour |
| Names.OriginalStem | shot_detect.py:103 | definition of the stem `original_<escaped model>` of the detection file |
| Names.UnescapeModel | shot_detect.py:128 | definition of `original_name.replace('-', '/')`; `ModelNameRoundTrip` states that it undoes the escape |
| Names.StemModelName | shot_detect.py:127 | `stem.split('_')[1]` exists exactly when the stem has an underscore |
| Names.ModelNameRoundTrip | shot_detect.py:103-128 | a model name with neither `-` nor `_` is read back from the file stem and unescaped to exactly itself |
| Names.EscapeCollides | shot_detect.py:103 | the escape is not injective: `/` and `-` in the same place give the same stem |

## Left out

- The detection service: the Google Video Intelligence client and result extraction. It is a network service.
- File and process plumbing. This is I/O.
  - JSON reading and writing, directory globbing and `mkdir`.
  - The `open` subprocess and the `input()` prompts, including the question whether to overwrite an existing overlay.
  - Writing `corrected_<model>.json`. It always carries `'source': 'correction'`.
- `splitlines()`: the lines of the edited file are the input of the pass. The header is modelled line by line, on the assumption that the URI and the model name hold no line break.
- Floating point. Timestamps are integer microseconds, and the `:.6f` format is exact on them.
  - `float()` on the `edit`/`add` timestamp tokens is the parameter `parseNum`; `None` stands for its `ValueError`.
  - `microseconds / 1e6` is not modelled.
- Correction.Correct: shots are values. `keep` in the source appends the original record itself, and a later `mergeup` mutates it in place. No later read sees this: only indices from `ptr` on and the start of `ptr-1` are read. So the aliasing is not modelled.
- Timestamp.PtsToTimestamp: takes the whole seconds and the centisecond field as naturals `n` and `cs < 100`, not a float. Negative timestamps and the float truncation `int((pts - floor(pts)) * precision)` are not modelled. The `precision` argument is fixed at its default `10e1` = 100, the value both call sites (shot_detect.py:293-294) use.
- The subtitle template and its `Dialogue` lines. Only the timestamp helper they call is modelled.
- Command-line dispatch, argument parsing, the credential check and the coloured error printing.
- The comment lines 185-187 that would check shot ids against the original are inactive code, and so they are not modelled.
- `action_export` is a stub that reports that the feature is not implemented and exits; it has nothing to model.
- The output of the pass is always tagged `'source': 'correction'`, whatever the edits were; the tag is output plumbing and is not modelled.

- CorrectionProps.ContiguityPreserved: covers only overlays of `keep`, `mergeup` and `mergedown`. `delete` is left out of it because the code leaves a gap there: `delete` emits nothing and the next `keep` emits the original shot after it, so `keep, delete, keep` on shots 0-10, 10-20, 20-30 gives 0-10, 20-30. `edit` and `add` take any timestamps the user writes.

## Findings

| source | as written | input that shows it | evidently intended | confidence | as-written member | corrected member |
|---|---|---|---|---|---|---|
| shot_detect.py:21-27 | the centisecond field is printed with `.{ms}`, without zero padding | 1.05 s, i.e. n = 1 and cs = 5, prints `0:00:01.5`; read as a decimal fraction, that is 1.5 s, the same value as 1.50 s, which prints `0:00:01.50` | the `H:MM:SS.cc` subtitle timecode, `.{ms:02d}`, which prints `0:00:01.05` | medium, not executed | Timestamp.UnpaddedFractionMisread | Timestamp.PaddedFractionReading |
