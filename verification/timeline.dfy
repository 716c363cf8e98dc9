/**
 * The composition loop: for every song, a copy of the countdown and then
 * the trimmed song, each placed on the shared timeline relative to the clip
 * before it, and the decision to render or to exit once the list is built.
 */
module Timeline {
  import opened Trim
  import opened Effects
  import opened Paths
  import opened Results
  import Intake

  /** The settings the loop reads, with the defaults the script falls back
      to listed in `Defaults`. */
  datatype Settings = Settings(
    fadeDuration: real,
    mp3Only: bool,
    cdStart: real,
    cdEnd: real,
    cdFade: real,
    cdStartOffset: real,
    cdEndOffset: real)

  /** `fade_duration` 2, `mp3_only` off, countdown from 0 to 0 with a 1 s
      fade, and no offsets. */
  function Defaults(): (s: Settings)
    ensures s.cdStartOffset == 0.0 && s.cdEndOffset == 0.0 && !s.mp3Only
  {
    Settings(2.0, false, 0.0, 0.0, 1.0, 0.0, 0.0)
  }

  datatype Kind = CountdownPart | SongPart

  /** A clip placed on the timeline: what it is, the file it came from, the
      window cut from that file, where it starts, and its effects. */
  datatype Clip = Clip(kind: Kind, source: string, window: Window, start: real, effects: seq<Effect>)
  {
    function Duration(): real {
      window.Length()
    }

    /** moviepy's `clip.end`. */
    function End(): real {
      start + Duration()
    }
  }

  /** A song to place, with the length of its downloaded file. */
  datatype Request = Request(song: Intake.Song, duration: real)

  /** `base_countdown_clip`: the countdown file cut to its window, with its
      effects, at moviepy's default start 0. */
  function CountdownTemplate(s: Settings, cdDuration: real): (t: Clip)
    ensures t.kind == CountdownPart && t.start == 0.0
  {
    Clip(CountdownPart, "!countdown", CountdownWindow(s.cdStart, s.cdEnd, cdDuration), 0.0,
         CountdownEffects(s.mp3Only, s.cdFade))
  }

  /** A song cut to its padded window, with its effects, not yet placed. */
  function SongClip(s: Settings, r: Request): (c: Clip)
    ensures c.kind == SongPart && c.start == 0.0
    ensures 0.0 <= c.window.start && c.window.end <= r.duration
  {
    Clip(SongPart, r.song.fileName,
         SongWindow(r.song.startTime as real, r.song.endTime as real, s.fadeDuration, r.duration),
         0.0, SongEffects(s.mp3Only, r.song.isMirrored, s.fadeDuration))
  }

  /** The songs of the requests, prepared in order. */
  function Prepare(s: Settings, reqs: seq<Request>): (songs: seq<Clip>)
    ensures |songs| == |reqs|
    ensures forall j :: 0 <= j < |reqs| ==> songs[j].kind == SongPart && songs[j].source == reqs[j].song.fileName
  {
    seq(|reqs|, j requires 0 <= j < |reqs| => SongClip(s, reqs[j]))
  }

  /** The countdown copy for the next song: moved to overlap the previous
      clip's end by `cd_start_offset` once two clips are placed, and left at
      the template's start before that. */
  function NextCountdown(template: Clip, placed: seq<Clip>, s: Settings): (c: Clip)
    ensures c == template.(start := c.start)
  {
    if |placed| >= 2 then template.(start := placed[|placed| - 1].End() - s.cdStartOffset) else template
  }

  /** `final_clips` after the loop has placed every prepared song, in
      order, each after its own copy of the countdown. */
  function Placement(template: Clip, songs: seq<Clip>, s: Settings): (clips: seq<Clip>)
    ensures |clips| == 2 * |songs|
    decreases |songs|
  {
    if songs == [] then []
    else
      var placed := Placement(template, songs[..|songs| - 1], s);
      var countdown := NextCountdown(template, placed, s);
      placed + [countdown, songs[|songs| - 1].(start := countdown.End() - s.cdEndOffset)]
  }

  /** The loop of the script: prepare the song, append a countdown copy,
      then append the song placed after it. */
  method BuildTimeline(s: Settings, cdDuration: real, reqs: seq<Request>) returns (clips: seq<Clip>)
    ensures clips == Placement(CountdownTemplate(s, cdDuration), Prepare(s, reqs), s)
  {
    var base := CountdownTemplate(s, cdDuration);
    ghost var songs := Prepare(s, reqs);
    clips := [];
    for i := 0 to |reqs|
      invariant clips == Placement(base, songs[..i], s)
    {
      var clip := SongClip(s, reqs[i]);
      var countdown := base;
      if |clips| >= 2 {
        countdown := countdown.(start := clips[|clips| - 1].End() - s.cdStartOffset);
      }
      clips := clips + [countdown];
      clip := clip.(start := countdown.End() - s.cdEndOffset);
      clips := clips + [clip];
      assert songs[..i + 1][..i] == songs[..i];
      assert songs[..i + 1][i] == clip.(start := 0.0);
    }
    assert songs[..|reqs|] == songs;
  }

  // ---------------------------------------------------------------------
  // Shape of the timeline
  // ---------------------------------------------------------------------

  /** Clips once placed are never moved: the timeline of the first `k`
      songs is the first `2k` clips of the whole. */
  lemma {:induction false} TimelinePrefix(template: Clip, songs: seq<Clip>, k: nat, s: Settings)
    requires k <= |songs|
    ensures Placement(template, songs[..k], s) == Placement(template, songs, s)[..2 * k]
    decreases |songs|
  {
    if k < |songs| {
      var init := songs[..|songs| - 1];
      TimelinePrefix(template, init, k, s);
      assert init[..k] == songs[..k];
      assert Placement(template, songs, s)[..2 * |init|] == Placement(template, init, s);
    } else {
      assert songs[..k] == songs;
    }
  }

  /** Song `j` is preceded by a countdown copy at position `2j`: the template
      itself for the first song, and for every later one the template moved
      to start `cd_start_offset` before the previous song ends. The song sits
      at `2j + 1`, starting `cd_end_offset` before that countdown ends. */
  lemma {:induction false} TimelineAt(template: Clip, songs: seq<Clip>, s: Settings, j: nat)
    requires j < |songs|
    ensures Placement(template, songs, s)[2 * j] ==
      if j == 0 then template
      else template.(start := Placement(template, songs, s)[2 * j - 1].End() - s.cdStartOffset)
    ensures Placement(template, songs, s)[2 * j + 1] ==
      songs[j].(start := Placement(template, songs, s)[2 * j].End() - s.cdEndOffset)
  {
    var clips := Placement(template, songs, s);
    var upto := songs[..j + 1];
    TimelinePrefix(template, songs, j + 1, s);
    assert upto[..j] == songs[..j];
    assert upto[j] == songs[j];
    var placed := Placement(template, songs[..j], s);
    assert Placement(template, upto, s) == placed + [NextCountdown(template, placed, s),
      songs[j].(start := NextCountdown(template, placed, s).End() - s.cdEndOffset)];
    if j > 0 {
      TimelinePrefix(template, songs, j, s);
      assert placed[2 * j - 1] == clips[2 * j - 1];
    }
  }

  /** The list alternates: countdown copies at even positions, songs at odd
      ones, position `2j + 1` holding song `j` with only its start set. */
  lemma {:induction false} Alternation(template: Clip, songs: seq<Clip>, s: Settings, i: nat)
    requires i < |Placement(template, songs, s)|
    ensures i % 2 == 0 ==> Placement(template, songs, s)[i] == template.(start := Placement(template, songs, s)[i].start)
    ensures i % 2 == 1 ==> Placement(template, songs, s)[i] == songs[i / 2].(start := Placement(template, songs, s)[i].start)
  {
    TimelineAt(template, songs, s, i / 2);
  }

  /** How each clip meets the one before it: a song overlaps its countdown by
      `cd_end_offset`, and every countdown after the first overlaps the song
      before it by `cd_start_offset`. */
  lemma {:induction false} Chaining(template: Clip, songs: seq<Clip>, s: Settings, i: nat)
    requires 1 <= i < |Placement(template, songs, s)|
    ensures Placement(template, songs, s)[i].start ==
      Placement(template, songs, s)[i - 1].End() - (if i % 2 == 1 then s.cdEndOffset else s.cdStartOffset)
  {
    TimelineAt(template, songs, s, i / 2);
  }

  /** The first countdown keeps the template's start whatever
      `cd_start_offset` is, and so does the song after it. */
  lemma {:induction false} FirstCountdownUnshifted(template: Clip, songs: seq<Clip>, s: Settings, offset: real)
    requires |songs| >= 1
    ensures Placement(template, songs, s)[0] == template
    ensures Placement(template, songs, s.(cdStartOffset := offset))[0] == template
    ensures Placement(template, songs, s)[1] == Placement(template, songs, s.(cdStartOffset := offset))[1]
  {
    TimelineAt(template, songs, s, 0);
    TimelineAt(template, songs, s.(cdStartOffset := offset), 0);
  }

  /** With both offsets zero the clips follow each other without gap or
      overlap. */
  lemma {:induction false} Gapless(template: Clip, songs: seq<Clip>, s: Settings)
    requires s.cdStartOffset == 0.0 && s.cdEndOffset == 0.0
    ensures forall i :: 1 <= i < |Placement(template, songs, s)| ==>
      Placement(template, songs, s)[i].start == Placement(template, songs, s)[i - 1].End()
  {
    forall i | 1 <= i < |Placement(template, songs, s)|
      ensures Placement(template, songs, s)[i].start == Placement(template, songs, s)[i - 1].End()
    {
      Chaining(template, songs, s, i);
    }
  }

  /** The summed lengths of the songs. */
  function SongTime(songs: seq<Clip>): real
    decreases |songs|
  {
    if songs == [] then 0.0 else SongTime(songs[..|songs| - 1]) + songs[|songs| - 1].Duration()
  }

  /** Where the last song ends: the template's start, plus every countdown
      and every song, less one `cd_end_offset` per song and one
      `cd_start_offset` per countdown after the first. */
  lemma {:induction false} RunningTime(template: Clip, songs: seq<Clip>, s: Settings)
    requires |songs| >= 1
    ensures Placement(template, songs, s)[2 * |songs| - 1].End() ==
      template.start + (|songs| as real) * (template.Duration() - s.cdEndOffset)
      + SongTime(songs) - ((|songs| - 1) as real) * s.cdStartOffset
    decreases |songs|
  {
    var n := |songs|;
    var clips := Placement(template, songs, s);
    LastSongEnd(template, songs, s);
    if n > 1 {
      var init := songs[..n - 1];
      RunningTime(template, init, s);
      TimelinePrefix(template, songs, n - 1, s);
      assert clips[2 * n - 3] == Placement(template, init, s)[2 * (n - 1) - 1];
      RunningStep(template.start, (n - 1) as real, template.Duration(), s.cdEndOffset, s.cdStartOffset,
                  SongTime(init), songs[n - 1].Duration(), clips[2 * n - 3].End());
    }
  }

  /** The last song ends one countdown and one song after the song before it
      (or after the template's start), less the two offsets. */
  lemma {:induction false} LastSongEnd(template: Clip, songs: seq<Clip>, s: Settings)
    requires |songs| >= 1
    ensures Placement(template, songs, s)[2 * |songs| - 1].End() ==
      (if |songs| == 1 then template.start else Placement(template, songs, s)[2 * |songs| - 3].End() - s.cdStartOffset)
      + template.Duration() - s.cdEndOffset + songs[|songs| - 1].Duration()
  {
    TimelineAt(template, songs, s, |songs| - 1);
  }

  /** One more countdown and song on top of the closed form for `k` songs
      gives the closed form for `k + 1`. */
  lemma RunningStep(start: real, k: real, countdown: real, endOffset: real, startOffset: real,
                    songs: real, w: real, previous: real)
    requires previous == start + k * (countdown - endOffset) + songs - (k - 1.0) * startOffset
    ensures previous - startOffset + countdown - endOffset + w ==
      start + (k + 1.0) * (countdown - endOffset) + (songs + w) - k * startOffset
  {
  }

  // ---------------------------------------------------------------------
  // The timeline the script builds from its requests
  // ---------------------------------------------------------------------

  /** Countdown copies at even positions, songs at odd ones in the order of
      the requests, each song cut and dressed as the settings say. */
  lemma {:induction false} ScriptAlternation(s: Settings, cdDuration: real, reqs: seq<Request>, i: nat)
    requires i < |Placement(CountdownTemplate(s, cdDuration), Prepare(s, reqs), s)|
    ensures Placement(CountdownTemplate(s, cdDuration), Prepare(s, reqs), s)[i].kind ==
      (if i % 2 == 0 then CountdownPart else SongPart)
    ensures i % 2 == 0 ==>
      var clip := Placement(CountdownTemplate(s, cdDuration), Prepare(s, reqs), s)[i];
      clip.window == CountdownWindow(s.cdStart, s.cdEnd, cdDuration) &&
      clip.effects == CountdownEffects(s.mp3Only, s.cdFade)
    ensures i % 2 == 1 ==>
      var r := reqs[i / 2];
      var clip := Placement(CountdownTemplate(s, cdDuration), Prepare(s, reqs), s)[i];
      clip.source == r.song.fileName &&
      clip.window == SongWindow(r.song.startTime as real, r.song.endTime as real, s.fadeDuration, r.duration) &&
      clip.effects == SongEffects(s.mp3Only, r.song.isMirrored, s.fadeDuration)
  {
    Alternation(CountdownTemplate(s, cdDuration), Prepare(s, reqs), s, i);
  }

  /** Song `j` is flipped exactly when it is not mirrored yet and the render
      has a picture; no countdown copy is ever flipped. */
  lemma {:induction false} MirrorOnTimeline(s: Settings, cdDuration: real, reqs: seq<Request>, i: nat)
    requires i < |Placement(CountdownTemplate(s, cdDuration), Prepare(s, reqs), s)|
    ensures MirrorX in Placement(CountdownTemplate(s, cdDuration), Prepare(s, reqs), s)[i].effects <==>
      i % 2 == 1 && !s.mp3Only && !reqs[i / 2].song.isMirrored
  {
    ScriptAlternation(s, cdDuration, reqs, i);
    CountdownEffectSet(s.mp3Only, s.cdFade, MirrorX);
    SongEffectSet(s.mp3Only, reqs[i / 2].song.isMirrored, s.fadeDuration, MirrorX);
  }

  /** An audio-only timeline carries no visual effect at all. */
  lemma {:induction false} AudioOnlyTimeline(s: Settings, cdDuration: real, reqs: seq<Request>)
    requires s.mp3Only
    ensures forall i, x :: (0 <= i < |Placement(CountdownTemplate(s, cdDuration), Prepare(s, reqs), s)| &&
      x in Placement(CountdownTemplate(s, cdDuration), Prepare(s, reqs), s)[i].effects) ==> !x.IsVisual()
  {
    var clips := Placement(CountdownTemplate(s, cdDuration), Prepare(s, reqs), s);
    forall i, x | 0 <= i < |clips| && x in clips[i].effects
      ensures !x.IsVisual()
    {
      ScriptAlternation(s, cdDuration, reqs, i);
      AudioOnlyHasNoVisual(reqs[i / 2].song.isMirrored, s.fadeDuration, s.cdFade);
    }
  }

  // ---------------------------------------------------------------------
  // After the loop
  // ---------------------------------------------------------------------

  /** What the script does with the finished list: exit with status 0 when
      it is empty, otherwise render to the output files of the mode. */
  datatype Finish = NothingToRender | Render(clips: seq<Clip>, outputs: seq<string>)

  function FinishTimeline(clips: seq<Clip>, mp3Only: bool): (f: Finish)
    ensures f.NothingToRender? <==> clips == []
  {
    if clips == [] then NothingToRender else Render(clips, RenderOutputs(mp3Only))
  }

  /** With the default settings the countdown is cut from 0 to 0: every
      countdown copy on the timeline lasts no time at all. */
  lemma {:induction false} DefaultCountdownSilent(cdDuration: real)
    requires cdDuration >= 0.0
    ensures CountdownTemplate(Defaults(), cdDuration).Duration() == 0.0
  {
    DefaultCountdownEmpty(cdDuration);
  }

  /** The script renders exactly when at least one song was read, and then
      renders all `2n` clips. */
  lemma {:induction false} RendersIffSongs(s: Settings, cdDuration: real, reqs: seq<Request>)
    ensures FinishTimeline(Placement(CountdownTemplate(s, cdDuration), Prepare(s, reqs), s), s.mp3Only).Render? <==> reqs != []
    ensures reqs != [] ==>
      |FinishTimeline(Placement(CountdownTemplate(s, cdDuration), Prepare(s, reqs), s), s.mp3Only).clips| == 2 * |reqs|
  {
  }

  // ---------------------------------------------------------------------
  // The whole script
  // ---------------------------------------------------------------------

  /** One request per song, in order, each with the length of the file it
      was downloaded to; `durationOf` stands for opening that file. */
  function Requests(songs: seq<Intake.Song>, mp3Only: bool, durationOf: string -> real): (reqs: seq<Request>)
    ensures |reqs| == |songs|
    ensures forall j :: 0 <= j < |songs| ==> reqs[j].song == songs[j]
  {
    seq(|songs|, j requires 0 <= j < |songs| => Request(songs[j], durationOf(DownloadPath(songs[j].fileName, mp3Only))))
  }

  /** Read the sheet, build the timeline, and render or exit. */
  function Run(rows: seq<seq<string>>, c: Intake.Columns, sanitize: string -> string,
               s: Settings, cdDuration: real, durationOf: string -> real): Result<Finish, Intake.IntakeError>
  {
    match Intake.SongList(Intake.AsWritten, rows, c, sanitize)
    case Failure(e) => Failure(e)
    case Success(songs) =>
      Success(FinishTimeline(Placement(CountdownTemplate(s, cdDuration),
                                      Prepare(s, Requests(songs, s.mp3Only, durationOf)), s), s.mp3Only))
  }

  /** The script fails exactly when reading the sheet fails, exits without
      rendering exactly when the sheet yields no song, and otherwise renders
      two clips per song to the files of its mode. */
  lemma {:induction false} RunOutcome(rows: seq<seq<string>>, c: Intake.Columns, sanitize: string -> string,
                                      s: Settings, cdDuration: real, durationOf: string -> real)
    ensures Run(rows, c, sanitize, s, cdDuration, durationOf).Failure? <==> Intake.SongList(Intake.AsWritten, rows, c, sanitize).Failure?
    ensures Run(rows, c, sanitize, s, cdDuration, durationOf) == Success(NothingToRender) <==>
      Intake.SongList(Intake.AsWritten, rows, c, sanitize) == Success([])
    ensures (Run(rows, c, sanitize, s, cdDuration, durationOf).Success? &&
             Run(rows, c, sanitize, s, cdDuration, durationOf).value.Render?) ==>
      |Run(rows, c, sanitize, s, cdDuration, durationOf).value.clips| == 2 * |Intake.SongList(Intake.AsWritten, rows, c, sanitize).value| &&
      Run(rows, c, sanitize, s, cdDuration, durationOf).value.outputs == RenderOutputs(s.mp3Only)
  {
  }
}
