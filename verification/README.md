# Countdown compilation: a model of the timeline composition

`test.py` turns a spreadsheet of songs into one video, or into one audio
file in audio-only mode. For every song it downloads the song, cuts out the
requested segment padded by a fade margin, and attaches fade effects. It
may also flip the picture. The song is then placed on a shared timeline
after a copy of a countdown clip, and the whole timeline is rendered.

This project models that composition logic in Dafny and proves what it
promises:

- **Timestamps** (`timestamps.dfy`, on top of `text.dfy`): `time_to_seconds`
  strips the string, splits it on `:` and reads every field with `int()`.
  The fields are weighted by powers of 60 from the right. `text.dfy` gives
  `str.strip`, `str.split` and base-10 `int()` their Python meaning:
  `strip()` drops every character `str.isspace()` accepts, while `int()`
  skips the same set less the separator controls U+001C..U+001F; `int()`
  allows one optional sign and single underscores between digits.
- **Intake** (`intake.dfy`):
  - The column-letter pass turns one-letter settings into column indices.
  - The loop over the rows skips the header and short rows, and stops at
    the first row with a missing field.
  - It builds each song's file name, url, start, end and mirror flag.
  - `ReadSongs` is the loop itself, with the guard `len(row) <
    columns['end_ts']` as written, proved equal to the recursive `SongList`.
    `SongList` takes the guard as a parameter, so the corrected guard can be
    stated and proved beside it (see Findings).
- **Trim windows** (`trim.dfy`): a song's window is padded by the fade and
  clamped to the clip. The countdown's end is clamped to the countdown, and
  it gets no padding.
- **Effects** (`effects.dfy`): each clip's effects are symbolic tags, in the
  order they are applied.
- **Paths** (`paths.dfy`): the name of each downloaded file, and the names
  of the render outputs.
- **Timeline** (`timeline.dfy`):
  - the countdown template;
  - the per-song preparation;
  - the placement loop `BuildTimeline`, proved equal to the fold `Placement`;
  - the decision to exit or render;
  - `Run`, which chains intake, placement and that decision.

Clips are immutable values, so every countdown copy is independent of the
template and of the other copies, as `countdown.copy()` intends. Times are
exact `real`s. Timestamps are `int`s, because `int()` yields integers.
`sanitize`, the length of a downloaded file (`durationOf`) and the length
of the countdown (`cdDuration`) are parameters.

Three behaviours of the code are worth stating plainly:

- **Signed fields.** `int()` accepts a sign, so `"-5"` is -5 seconds and
  `"1:-30"` is 30 seconds (`Timestamps.SignedExamples`).
- **Windows.** The script computes each song's window and hands it to
  `subclipped` without a check of its own, even when the request starts
  past the end of the clip (`Trim.SongWindowUnchecked`).
- **Row errors.** An exception raised while reading a row propagates
  as it is and does not carry the row's name; the model returns the bare
  error kind.

## Model

| member | source | states |
|---|---|---|
| Text.Strip | test.py:35 | `timestr.strip()`: both ends stripped of what `str.isspace()` accepts; its properties are stated by `Text.StripSpec` |
| Text.StripLeftSpec | test.py:35 | a left strip removes a prefix made only of blanks and keeps a suffix that does not start with a blank |
| Text.StripRightSpec | test.py:35 | a right strip removes a suffix made only of blanks and keeps a prefix that does not end with a blank |
| Text.StripBlanksSpec | test.py:35 | a strip (of either whitespace set) never lengthens the string, leaves no blank at either end, and yields `""` exactly when the string is all blanks |
| Text.StripSpec | test.py:35 | `strip` leaves no whitespace at either end, and yields `""` exactly when the string is all whitespace |
| Text.StripKeeps | test.py:35 | a string with non-blank ends is unchanged by `strip` and by the strip of `int()` |
| Text.StripsAgree | test.py:35 | on a string without the separator controls U+001C..U+001F, `strip()` and the strip of `int()` agree |
| Text.Split | test.py:35 | `split(':')` always yields at least one piece |
| Text.SplitPieces | test.py:35 | no piece of `split(':')` contains `:` |
| Text.SplitJoin | test.py:35 | joining the pieces with the separator gives back the string (split loses nothing) |
| Text.SplitNoSeparator | test.py:35 | a string without the separator splits into itself alone |
| Text.SplitAtFirst | test.py:35 | a separator after a separator-free prefix cuts off exactly that prefix |
| Text.ParseInt | test.py:35 | `int()` succeeds only on a field that is not blank after skipping `int()`'s whitespace, and yields a negative value only after a leading `-` |
| Text.SeparatorNotSkipped | test.py:35 | `int(" 5")` is 5 but `int("\x1f5")` raises, although `strip()` removes the `\x1f` |
| Text.ParseDecimal | test.py:35 | `int(str(n)) == n` for every natural `n` |
| Text.ParseNegative | test.py:35 | `int("-" + str(n)) == -n`: a sign is accepted |
| Timestamps.ParseFields | test.py:35 | the list comprehension, when it succeeds, holds one value per field |
| Timestamps.ParseFieldsSpec | test.py:35 | the list comprehension succeeds exactly when every field is an integer, and then holds their values in order |
| Timestamps.ParseFieldsAll | test.py:35 | fields that each parse give exactly the list of their values |
| Timestamps.TimeToSeconds | test.py:34-36 | `time_to_seconds` raises on a timestamp that is blank once stripped |
| Timestamps.TimeToSecondsDefined | test.py:34-36 | `time_to_seconds` raises exactly when some field of the stripped, split string is not an integer |
| Timestamps.PositionalIsHorner | test.py:36 | weighting the reversed fields by `60**i` equals Horner's rule on the fields in written order |
| Timestamps.TimeToSecondsIsHorner | test.py:34-36 | a well-formed timestamp is worth its fields in base 60, most significant first |
| Timestamps.ParseTwoDigits | test.py:35 | a two-digit field with a leading zero (`"07"`) reads as its value |
| Timestamps.OneField | test.py:34-36 | a one-field timestamp is worth that field in seconds |
| Timestamps.TwoFields | test.py:34-36 | a two-field timestamp is worth `60*a + b` |
| Timestamps.ThreeFields | test.py:34-36 | a three-field timestamp is worth `3600*a + 60*b + c` |
| Timestamps.ClockTimeRoundTrip | test.py:34-36 | reading `H:MM:SS` back gives `3600*H + 60*M + S` for all `M, S < 60` |
| Timestamps.HoursMinutesSeconds | test.py:34-36 | `"1:02:03"` is 3723 seconds |
| Timestamps.SingleField | test.py:34-36 | a single field `"n"` is `n` seconds |
| Timestamps.NegativeSeconds | test.py:34-36 | `"-n"` is accepted and is `-n` seconds |
| Timestamps.NegativeField | test.py:34-36 | `"m:-n"` is accepted and is `60*m - n` seconds |
| Timestamps.SignedExamples | test.py:34-36 | `"-5"` is -5 and `"1:-30"` is 30: signed fields are not rejected |
| Timestamps.BlankIsMalformed | test.py:34-36 | an empty or all-whitespace timestamp raises |
| Timestamps.EmptyFieldIsMalformed | test.py:34-36 | an empty field (`"1::2"`) raises |
| Timestamps.SeparatorInField | test.py:34-36 | `"\x1f5"` is 5 seconds (the outer `strip()` drops the control) but `"1:\x1f5"` raises (`int()` does not) |
| Intake.Resolve | test.py:26-27 | one step of the pass leaves a value alone or turns it into an index, and never leaves a one-character string |
| Intake.ColumnLetter | test.py:25-27 | a one-letter column name becomes an index in `0..25`, the same for either case, `A` being 0 |
| Intake.ResolveLetters | test.py:25-27 | the pass keeps every key and replaces each value by its resolved form |
| Intake.Lookup | test.py:45-50 | `row[i]` succeeds exactly for `-len(row) <= i < len(row)`, with negative indices counting from the end |
| Intake.ReadRow | test.py:45-61 | a row past the guard is never passed over, and raises `IndexError` exactly when one of the six reads is out of range |
| Intake.ProcessRow | test.py:43-44 | a row is passed over exactly when the guard finds it too short: shorter than `end_ts` as written, at most `end_ts` long when corrected |
| Intake.GuardOffByOne | test.py:43-49 | a row of exactly `end_ts` fields passes the written guard and raises `IndexError`; the corrected guard skips it |
| Intake.GuardedReadsInRange | test.py:43-50 | with the corrected guard and the other columns at or before `end_ts`, no row raises `IndexError` |
| Intake.OffByOneEndsRun | test.py:42-61 | a sheet whose one data row has exactly `end_ts` fields raises `IndexError` as written, and yields no song with the corrected guard |
| Intake.CorrectedNeverOutOfRange | test.py:42-61 | with the corrected guard and the other columns at or before `end_ts`, reading a whole sheet never raises `IndexError` |
| Intake.IntakeData | test.py:42-61 | the loop over the data rows yields at most one song per row |
| Intake.SongList | test.py:42-61 | a sheet of only a header (or of nothing) yields no song, and a sheet yields fewer songs than it has rows |
| Intake.ReadSongs | test.py:42-61 | the loop with the guard as written, `continue`, `break` and exceptions yields exactly `SongList` of the rows with that guard |
| Intake.StopCondition | test.py:45-53 | a row stops intake exactly when all reads succeed and the url, the sanitized name, the start or the end is empty |
| Intake.KeptSong | test.py:45-61 | an appended song carries the row's url and parsed timestamps, the stripped `"<name> - <artist>"` with non-blank ends, and is unmirrored exactly when the mirror column exists and says "yes" |
| Intake.MalformedCondition | test.py:52-59 | a `ValueError` arises exactly when reading succeeded, no field is missing, and a timestamp does not parse |
| Intake.HeaderIgnored | test.py:42-44 | the header row's contents never affect the result |
| Intake.ShortRowIgnored | test.py:43-44 | a short row can be removed without changing the result |
| Intake.StopsAtIncomplete | test.py:52-53 | rows after the first row with a missing field are never read |
| Intake.SongsFromRows | test.py:42-61 | every song comes from a data row that yielded it, and there are no more songs than data rows |
| Trim.SongWindow | test.py:124-125 | the window starts at `max(0, start - fade)`, never before 0, and ends at `min(duration, end + fade)`, never past the file's end; the start is not bounded by the file's length |
| Trim.CountdownWindow | test.py:103-104 | the countdown window keeps `cd_start` and ends at `min(cd_end, duration)` |
| Trim.SongWindowCovers | test.py:124-126 | with a non-negative fade, the window covers a request that lies inside the clip |
| Trim.SongWindowPadded | test.py:124-125 | padding that fits is applied in full: the window is longer than the request by twice the fade |
| Trim.SongWindowNonEmpty | test.py:124-126 | a request with `0 <= start < end <= duration` gives a window of positive length |
| Trim.SongWindowUnchecked | test.py:124-126 | the script adds no check of its own on a request past the clip's end: with a 2 s fade, 5..6 s of a 3 s clip is handed the empty window `[3, 3]`, and 10..11 s the inverted window `[8, 3]`, whose padded start lies past the file's end |
| Trim.CountdownUnpadded | test.py:103-104 | an in-range countdown end is kept exactly, without padding |
| Trim.DefaultCountdownEmpty | test.py:17-18 | the default countdown start and end (0 and 0) give an empty window |
| Effects.SongEffects | test.py:129-147 | a song gets 3 effects in audio-only mode, 5 in video mode, and a sixth (the flip) when not yet mirrored in video mode |
| Effects.CountdownEffects | test.py:105 | the countdown gets 2 effects in audio-only mode and 4 in video mode |
| Effects.SongEffectSet | test.py:129-147 | a song gets the three audio effects always, the visual fades exactly in video mode, and `MirrorX` exactly when not mirrored and in video mode |
| Effects.SongEffectOrder | test.py:129-147 | `MirrorX`, when present, is applied last, and no effect is listed twice |
| Effects.CountdownEffectSet | test.py:105 | the countdown gets normalisation and the audio fade-out always, the visual fades in video mode, never `AudioFadeIn` and never `MirrorX` |
| Effects.AudioOnlyHasNoVisual | test.py:105-143 | in audio-only mode no song or countdown gets a visual effect |
| Effects.CountdownIsSongWithoutFadeIn | test.py:105-143 | the countdown's list is a mirrored song's list without `AudioFadeIn`, in the same order |
| Paths.FileFormat | test.py:30-31 | the format is `mp3` exactly in audio-only mode, and `mp4` otherwise |
| Paths.OutputTemplate | test.py:69 | the template is `downloads/<name>`, followed by the four characters `.mp4` in video mode and by nothing in audio-only mode |
| Paths.DownloadPath | test.py:71-97 | the checked and returned path is `downloads/` followed by the name and four more characters |
| Paths.CleanupPath | test.py:190 | the removed file is `downloads/<name>.<format>` |
| Paths.DownloadPathNamed | test.py:69-97 | in both modes the checked and returned path is `downloads/<name>.<format>`, the path that clean-up removes (test.py:190) |
| Paths.TemplateLacksExtension | test.py:69-71 | yt-dlp gets the path without its extension in audio-only mode and the full path in video mode |
| Paths.DownloadPathInjective | test.py:97 | different names never share a download path |
| Paths.RenderOutputs | test.py:170-182 | the render writes one or two files, the last always `final/final_output.mp3` |
| Paths.RenderOutputsByMode | test.py:170-182 | every render writes `final/final_output.mp3`, and writes `final/final_output.mp4` exactly in video mode |
| Timeline.Defaults | test.py:15-30 | the default settings have no offsets and are not audio-only |
| Timeline.DefaultCountdownSilent | test.py:17-18 | with the default settings every countdown copy lasts no time |
| Timeline.CountdownTemplate | test.py:100-105 | the template is a countdown clip starting at 0 |
| Timeline.SongClip | test.py:119-147 | a prepared song is a song clip at start 0 whose window starts no earlier than 0 and ends no later than its downloaded file; a request that starts after the file ends keeps its padded start (see `Trim.SongWindowUnchecked`) |
| Timeline.Prepare | test.py:111-147 | one prepared song clip per request, in order, named after the request's song |
| Timeline.NextCountdown | test.py:150-153 | a countdown copy differs from the template in its start only |
| Timeline.Placement | test.py:150-158 | `n` songs give `2n` clips |
| Timeline.BuildTimeline | test.py:108-158 | the appending loop, peeking at the last clip, builds exactly `Placement` of the prepared songs |
| Timeline.TimelinePrefix | test.py:150-158 | placed clips never move: the first `k` songs give the first `2k` clips |
| Timeline.TimelineAt | test.py:150-158 | clip `2j` is the template, moved to `cd_start_offset` before the previous clip's end when `j > 0`; clip `2j+1` is song `j`, starting `cd_end_offset` before that countdown's end |
| Timeline.Alternation | test.py:150-158 | even positions hold countdown copies and position `2j+1` holds song `j`, differing only in start |
| Timeline.Chaining | test.py:151-157 | every clip after the first starts the matching offset before the previous clip ends |
| Timeline.FirstCountdownUnshifted | test.py:150-154 | the first countdown is the template itself, and the first two clips do not depend on `cd_start_offset` |
| Timeline.Gapless | test.py:150-158 | with both offsets 0, each clip starts exactly where the previous one ends |
| Timeline.LastSongEnd | test.py:150-158 | the last song ends one countdown and one song after the previous song, less both offsets |
| Timeline.RunningTime | test.py:150-158 | the last song ends at `n*(countdown - cd_end_offset) + total song time - (n-1)*cd_start_offset` after the template's start |
| Timeline.ScriptAlternation | test.py:111-158 | in the script's timeline, even clips are countdowns with the countdown window and effects; clip `2j+1` is song `j` with its file name, padded window and effects |
| Timeline.MirrorOnTimeline | test.py:145-147 | a clip is flipped exactly when it is a song, not yet mirrored, in video mode |
| Timeline.AudioOnlyTimeline | test.py:105-147 | an audio-only timeline carries no visual effect |
| Timeline.FinishTimeline | test.py:164-166 | the script exits without rendering exactly when the clip list is empty |
| Timeline.RendersIffSongs | test.py:164-166 | the script renders exactly when there is a song, and then renders `2n` clips |
| Timeline.Requests | test.py:111-121 | there is one request per song, in order, carrying that song |
| Timeline.Run | test.py:42-182 | the whole script: intake with the guard as written, then the timeline of the downloaded songs, then exit or render; its outcome is stated by `Timeline.RunOutcome` |
| Timeline.RunOutcome | test.py:163-182 | the script fails exactly when intake fails, exits exactly when intake yields no song, and otherwise renders `2n` clips to the outputs of its mode |

## Left out

- Downloading is not modelled: `yt_dlp`, `os.path.exists`, `os.makedirs` and `os.remove` (test.py:64-65, 68-94, 188-190). Only the paths they use are modelled.
- File reading is not modelled: `settings.json` and the CSV file are taken as parameters, the sheet already parsed into rows (test.py:11-21, 40-41).
- The `columns` lookups are not modelled as the script does them. Intake takes the six column indices already resolved to integers, so the errors of a missing key (`KeyError`) or of a value that cannot index a row (`TypeError`) are not raised. In the script, a missing `end_ts`, or one that cannot be compared with a length (a string, null or a list), raises in the guard itself on row 1, whether that row is short or not. A float `end_ts` passes the comparison and raises only when it indexes a row that passed the guard. The other keys raise where the script first uses them, at the first row that passes the guard, except a float `is_mirrored`, which raises only on a row longer than its value.
- Intake.Resolve upper-cases ASCII letters only; for other characters Python's `upper()` can change length (`'ß'` becomes `"SS"`) and `ord()` then raises.
- Text.ParseInt accepts ASCII digits only; Python's `int()` also accepts every other Unicode decimal digit (Thai digits included).
- Text.ParseInt has no length limit; CPython's `int()` raises `ValueError` on a string of more than 4300 digits.
- Trim.SongWindowUnchecked: moviepy's own rejection of a window whose start is at or past the clip's length (`subclipped` raises `ValueError`) is not modelled, so `Timeline.Run` renders where the program raises.
- JSON booleans used as columns (Python treats `True` as index 1) fall under `Other` and are left unchanged.
- moviepy is not modelled:
  - decoding, `subclipped`, applying effects, `CompositeVideoClip`/`CompositeAudioClip` and writing files (test.py:101, 120, 167-182);
  - effects are symbolic tags, and a clip's length is its window's length;
  - how moviepy treats a negative or out-of-range window is not modelled;
  - clip lengths come from the `durationOf` and `cdDuration` parameters.
- Floating point is not modelled: durations and settings are exact reals, not IEEE doubles.
- Logging (`print`), `clip.close()` and the exit status are left out. Exiting is the `NothingToRender` outcome.
- The countdown's own download (test.py:100) is only named by its path; its length is the parameter `cdDuration`.
- Two songs with the same file name share one download path (`Paths.DownloadPathInjective` is the converse); the repeated `os.remove` at clean-up is I/O and is not modelled.

## Findings

| source | as written | input that shows it | evidently intended | confidence | as-written member | corrected member |
|---|---|---|---|---|---|---|
| test.py:43 | the guard `len(row) < columns['end_ts']` lets a row of exactly `end_ts` fields through, and `row[columns['end_ts']]` then raises `IndexError` | with `end_ts` set to column `L` (index 11), a data row of 11 fields | skip every row too short to hold the end-time column (`len(row) <= columns['end_ts']`), as the comment "skip header or incomplete rows" says | not executed | Intake.OffByOneEndsRun | Intake.CorrectedNeverOutOfRange |

`Intake.ReadSongs` and `Timeline.Run` use the guard as written (`Intake.AsWritten`); `Intake.GuardedReadsInRange` and `Intake.CorrectedNeverOutOfRange` are proved of the corrected guard (`Intake.Corrected`).
