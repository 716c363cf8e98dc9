/**
 * Reading the song list: the pass that turns column letters from the
 * settings into row indices, and the loop over the rows of the entry sheet
 * that builds the list of songs to fetch.
 */
module Intake {
  import opened Results
  import opened Text
  import opened Timestamps

  // ---------------------------------------------------------------------
  // Column letters
  // ---------------------------------------------------------------------

  /** A value of the `columns` object in the settings: a number, a string, or
      any other JSON value (boolean, null, list, ...). */
  datatype ColumnSetting = Index(i: int) | Letters(s: string) | Other

  /** `c.upper()` for the ASCII letters. */
  function UpperAscii(c: char): (u: char)
  {
    if 'a' <= c <= 'z' then (c as int - 'a' as int + 'A' as int) as char else c
  }

  /** One step of the pass: a one-character string becomes its offset from
      `'A'` after upper-casing; every other value is left as it is. */
  function Resolve(v: ColumnSetting): (r: ColumnSetting)
    ensures r == v || r.Index?
    ensures !(r.Letters? && |r.s| == 1)
  {
    if v.Letters? && |v.s| == 1 then Index(UpperAscii(v.s[0]) as int - 'A' as int) else v
  }

  /** Letters name the columns of a spreadsheet: `A`/`a` is 0, ..., `Z`/`z`
      is 25, whatever the case. */
  lemma ColumnLetter(c: char)
    requires 'A' <= c <= 'Z' || 'a' <= c <= 'z'
    ensures Resolve(Letters([c])).Index?
    ensures 0 <= Resolve(Letters([c])).i < 26
    ensures Resolve(Letters([c])) == Resolve(Letters([UpperAscii(c)]))
    ensures 'A' <= c <= 'Z' ==> Resolve(Letters([c])).i == c as int - 'A' as int
  {
  }

  /** The pass over `columns.items()`, rewriting each value in place. */
  method ResolveLetters(columns: map<string, ColumnSetting>) returns (resolved: map<string, ColumnSetting>)
    ensures resolved.Keys == columns.Keys
    ensures forall k :: k in columns ==> resolved[k] == Resolve(columns[k])
  {
    resolved := columns;
    var pending := columns.Keys;
    while pending != {}
      invariant pending <= columns.Keys
      invariant resolved.Keys == columns.Keys
      invariant forall k :: k in pending ==> resolved[k] == columns[k]
      invariant forall k :: k in columns && k !in pending ==> resolved[k] == Resolve(columns[k])
      decreases |pending|
    {
      var k :| k in pending;
      var value := resolved[k];
      if value.Letters? && |value.s| == 1 {
        resolved := resolved[k := Index(UpperAscii(value.s[0]) as int - 'A' as int)];
      }
      pending := pending - {k};
    }
  }

  // ---------------------------------------------------------------------
  // Rows of the entry sheet
  // ---------------------------------------------------------------------

  /** The column indices the loop reads, once resolved. */
  datatype Columns = Columns(songName: int, songArtist: int, url: int, startTs: int, endTs: int, isMirrored: int)

  /** One entry of `songs`. */
  datatype Song = Song(fileName: string, url: string, startTime: int, endTime: int, isMirrored: bool)

  /** The exceptions the loop can raise: `IndexError` from a column past the
      end of a row, `ValueError` from a timestamp `int()` rejects. */
  datatype IntakeError = IndexOutOfRange | MalformedTimestamp

  /** What one row does to the loop: `continue`, `break`, an exception, or a
      song appended. */
  datatype RowOutcome = Skipped | Stopped | Crashed(error: IntakeError) | Kept(song: Song)

  /** `row[i]`, with Python's negative indices counting from the end. */
  function Lookup(row: seq<string>, i: int): (r: Option<string>)
    ensures r.Some? <==> -|row| <= i < |row|
    ensures r.Some? && i >= 0 ==> r.value == row[i]
    ensures r.Some? && i < 0 ==> r.value == row[|row| + i]
  {
    if 0 <= i < |row| then Some(row[i])
    else if -|row| <= i < 0 then Some(row[|row| + i])
    else None
  }

  /** The Thai word for "yes" that marks a song to be flipped. */
  const Yes: string := "\U{0E43}\U{0E0A}\U{0E48}"

  /** A row past the guard: the six reads in order, the `break` on a missing
      field, then the two timestamps. */
  function ReadRow(row: seq<string>, c: Columns, sanitize: string -> string): (o: RowOutcome)
    ensures o != Skipped
    ensures o == Crashed(IndexOutOfRange) <==>
      (Lookup(row, c.songName).None? || Lookup(row, c.songArtist).None? || Lookup(row, c.url).None? ||
       Lookup(row, c.startTs).None? || Lookup(row, c.endTs).None? ||
       (|row| > c.isMirrored && Lookup(row, c.isMirrored).None?))
  {
    var name := Lookup(row, c.songName);
    var artist := Lookup(row, c.songArtist);
    var url := Lookup(row, c.url);
    var startTs := Lookup(row, c.startTs);
    var endTs := Lookup(row, c.endTs);
    var mirror := if |row| > c.isMirrored then Lookup(row, c.isMirrored) else Some("");
    if name.None? || artist.None? || url.None? || startTs.None? || endTs.None? || mirror.None? then
      Crashed(IndexOutOfRange)
    else
      var songName := sanitize(name.value);
      var songArtist := sanitize(artist.value);
      var isMirrored := !(|row| > c.isMirrored && mirror.value == Yes);
      if url.value == [] || songName == [] || startTs.value == [] || endTs.value == [] then
        Stopped
      else
        var start := TimeToSeconds(startTs.value);
        var end := TimeToSeconds(endTs.value);
        if start.None? || end.None? then Crashed(MalformedTimestamp)
        else Kept(Song(Strip(songName + " - " + songArtist), url.value, start.value, end.value, isMirrored))
  }

  /** The test that passes over a row too short to read: the script writes
      `len(row) < columns['end_ts']`; the corrected test `len(row) <=
      columns['end_ts']` also passes over a row that ends just before the
      end-time column. */
  datatype Guard = AsWritten | Corrected

  predicate TooShort(g: Guard, row: seq<string>, c: Columns) {
    if g == AsWritten then |row| < c.endTs else |row| <= c.endTs
  }

  /** A data row as the loop treats it: passed over when the guard finds it
      too short, read otherwise. */
  function ProcessRow(g: Guard, row: seq<string>, c: Columns, sanitize: string -> string): (o: RowOutcome)
    ensures TooShort(g, row, c) ==> o == Skipped
    ensures o.Skipped? ==> TooShort(g, row, c)
  {
    if TooShort(g, row, c) then Skipped else ReadRow(row, c, sanitize)
  }

  /** A row with exactly `end_ts` fields passes the guard as written and then
      fails on `row[columns['end_ts']]`; the corrected guard passes over it. */
  lemma {:induction false} GuardOffByOne(row: seq<string>, c: Columns, sanitize: string -> string)
    requires c.endTs >= 0 && |row| == c.endTs
    ensures ProcessRow(AsWritten, row, c, sanitize) == Crashed(IndexOutOfRange)
    ensures ProcessRow(Corrected, row, c, sanitize) == Skipped
  {
    assert Lookup(row, c.endTs).None?;
  }

  /** The corrected guard makes every read safe whenever the other columns lie
      at or before the end-time column: no row can raise `IndexError`. */
  lemma {:induction false} GuardedReadsInRange(row: seq<string>, c: Columns, sanitize: string -> string)
    requires 0 <= c.songName <= c.endTs && 0 <= c.songArtist <= c.endTs
    requires 0 <= c.url <= c.endTs && 0 <= c.startTs <= c.endTs && 0 <= c.isMirrored
    ensures ProcessRow(Corrected, row, c, sanitize) != Crashed(IndexOutOfRange)
  {
  }

  /** The loop over the data rows (the header already passed over). */
  function IntakeData(g: Guard, data: seq<seq<string>>, c: Columns, sanitize: string -> string): (r: Result<seq<Song>, IntakeError>)
    ensures r.Success? ==> |r.value| <= |data|
    decreases |data|
  {
    if data == [] then Success([])
    else
      match ProcessRow(g, data[0], c, sanitize)
      case Skipped => IntakeData(g, data[1..], c, sanitize)
      case Stopped => Success([])
      case Crashed(e) => Failure(e)
      case Kept(song) => Prepend(song, IntakeData(g, data[1..], c, sanitize))
  }

  function Prepend(song: Song, r: Result<seq<Song>, IntakeError>): Result<seq<Song>, IntakeError>
  {
    if r.Success? then Success([song] + r.value) else r
  }

  /** `songs` after the loop over every row of the sheet; row 0 is the
      header. */
  function SongList(g: Guard, rows: seq<seq<string>>, c: Columns, sanitize: string -> string): (r: Result<seq<Song>, IntakeError>)
    ensures |rows| <= 1 ==> r == Success([])
    ensures r.Success? ==> |r.value| < |rows| || rows == []
  {
    if rows == [] then Success([]) else IntakeData(g, rows[1..], c, sanitize)
  }

  /** The songs already appended, followed by what the rest of the rows
      yield. */
  function Continue(songs: seq<Song>, r: Result<seq<Song>, IntakeError>): Result<seq<Song>, IntakeError>
  {
    if r.Success? then Success(songs + r.value) else r
  }

  /** The loop of the script: `continue` on the header and short rows,
      `break` on the first row with a missing field, and an exception
      abandons the list. */
  method ReadSongs(rows: seq<seq<string>>, c: Columns, sanitize: string -> string) returns (r: Result<seq<Song>, IntakeError>)
    ensures r == SongList(AsWritten, rows, c, sanitize)
  {
    var songs: seq<Song> := [];
    var i := 0;
    while i < |rows|
      invariant 0 <= i <= |rows|
      invariant i == 0 ==> songs == []
      invariant i >= 1 ==> Continue(songs, IntakeData(AsWritten, rows[i..], c, sanitize)) == SongList(AsWritten, rows, c, sanitize)
      decreases |rows| - i
    {
      if i < 1 || |rows[i]| < c.endTs {
        if i == 0 {
          ContinueNothing(IntakeData(AsWritten, rows[1..], c, sanitize));
        } else {
          assert rows[i..][1..] == rows[i + 1..];
          assert IntakeData(AsWritten, rows[i..], c, sanitize) == IntakeData(AsWritten, rows[i + 1..], c, sanitize);
        }
        i := i + 1;
        continue;
      }
      var outcome := ReadRow(rows[i], c, sanitize);
      assert rows[i..][0] == rows[i] && rows[i..][1..] == rows[i + 1..];
      assert ProcessRow(AsWritten, rows[i], c, sanitize) == outcome;
      if outcome.Stopped? {
        assert IntakeData(AsWritten, rows[i..], c, sanitize) == Success([]);
        assert songs + [] == songs;
        break;
      }
      if outcome.Crashed? {
        assert IntakeData(AsWritten, rows[i..], c, sanitize) == Failure(outcome.error);
        return Failure(outcome.error);
      }
      assert IntakeData(AsWritten, rows[i..], c, sanitize) == Prepend(outcome.song, IntakeData(AsWritten, rows[i + 1..], c, sanitize));
      ContinueAppend(songs, outcome.song, IntakeData(AsWritten, rows[i + 1..], c, sanitize));
      songs := songs + [outcome.song];
      i := i + 1;
    }
    if i == |rows| {
      assert rows[i..] == [] && songs + [] == songs;
    }
    r := Success(songs);
  }

  lemma ContinueNothing(r: Result<seq<Song>, IntakeError>)
    ensures Continue([], r) == r
  {
    if r.Success? {
      assert [] + r.value == r.value;
    }
  }

  lemma {:induction false} ContinueAppend(songs: seq<Song>, song: Song, r: Result<seq<Song>, IntakeError>)
    ensures Continue(songs, Prepend(song, r)) == Continue(songs + [song], r)
  {
    if r.Success? {
      assert songs + ([song] + r.value) == (songs + [song]) + r.value;
    }
  }

  // ---------------------------------------------------------------------
  // What the loop promises
  // ---------------------------------------------------------------------

  /** A row stops the loop exactly when every read succeeds and the url, the
      sanitized name, the start or the end is empty. */
  lemma {:induction false} StopCondition(row: seq<string>, c: Columns, sanitize: string -> string)
    ensures ReadRow(row, c, sanitize) == Stopped <==>
      (Lookup(row, c.songName).Some? && Lookup(row, c.songArtist).Some? && Lookup(row, c.url).Some? &&
       Lookup(row, c.startTs).Some? && Lookup(row, c.endTs).Some? &&
       (|row| > c.isMirrored ==> Lookup(row, c.isMirrored).Some?) &&
       (Lookup(row, c.url).value == [] || sanitize(Lookup(row, c.songName).value) == [] ||
        Lookup(row, c.startTs).value == [] || Lookup(row, c.endTs).value == []))
  {
  }

  /** A song appended from a row carries the row's url and its two parsed
      timestamps, the file name `"<name> - <artist>"` of the sanitized fields
      with no whitespace left at either end, and is left unmirrored exactly
      when the mirror column exists and says yes. */
  lemma {:induction false} KeptSong(row: seq<string>, c: Columns, sanitize: string -> string, song: Song)
    requires ReadRow(row, c, sanitize) == Kept(song)
    ensures Lookup(row, c.url) == Some(song.url) && song.url != []
    ensures Lookup(row, c.startTs).Some? && TimeToSeconds(Lookup(row, c.startTs).value) == Some(song.startTime)
    ensures Lookup(row, c.endTs).Some? && TimeToSeconds(Lookup(row, c.endTs).value) == Some(song.endTime)
    ensures Lookup(row, c.songName).Some? && Lookup(row, c.songArtist).Some?
    ensures song.fileName == Strip(sanitize(Lookup(row, c.songName).value) + " - " + sanitize(Lookup(row, c.songArtist).value))
    ensures song.fileName != [] && !IsSpace(song.fileName[0]) && !IsSpace(song.fileName[|song.fileName| - 1])
    ensures !song.isMirrored <==> |row| > c.isMirrored && Lookup(row, c.isMirrored) == Some(Yes)
  {
    var name := sanitize(Lookup(row, c.songName).value);
    var full := name + " - " + sanitize(Lookup(row, c.songArtist).value);
    assert full[|name| + 1] == '-';
    StripSpec(full);
  }

  /** A timestamp `int()` rejects ends the run with `ValueError`, and only
      after every read has succeeded and no field is missing. */
  lemma {:induction false} MalformedCondition(row: seq<string>, c: Columns, sanitize: string -> string)
    ensures ReadRow(row, c, sanitize) == Crashed(MalformedTimestamp) <==>
      (ReadRow(row, c, sanitize) != Crashed(IndexOutOfRange) && ReadRow(row, c, sanitize) != Stopped &&
       (TimeToSeconds(Lookup(row, c.startTs).value).None? || TimeToSeconds(Lookup(row, c.endTs).value).None?))
  {
  }

  /** The header row, whatever it holds, never reaches the song list. */
  lemma {:induction false} HeaderIgnored(g: Guard, header1: seq<string>, header2: seq<string>, data: seq<seq<string>>, c: Columns, sanitize: string -> string)
    ensures SongList(g, [header1] + data, c, sanitize) == SongList(g, [header2] + data, c, sanitize)
  {
    assert ([header1] + data)[1..] == data == ([header2] + data)[1..];
  }

  /** A row too short to hold the end-time column is passed over: the rows
      around it give the same result with or without it. */
  lemma {:induction false} ShortRowIgnored(g: Guard, pre: seq<seq<string>>, row: seq<string>, post: seq<seq<string>>, c: Columns, sanitize: string -> string)
    requires |row| < c.endTs
    ensures IntakeData(g, pre + [row] + post, c, sanitize) == IntakeData(g, pre + post, c, sanitize)
    decreases |pre|
  {
    if pre == [] {
      assert (pre + [row] + post)[1..] == post;
      assert pre + post == post;
    } else {
      ShortRowIgnored(g, pre[1..], row, post, c, sanitize);
      assert (pre + [row] + post)[0] == pre[0] && (pre + [row] + post)[1..] == pre[1..] + [row] + post;
      assert (pre + post)[0] == pre[0] && (pre + post)[1..] == pre[1..] + post;
    }
  }

  /** Intake stops at the first row with a missing field: nothing after it
      is ever read. */
  lemma {:induction false} StopsAtIncomplete(g: Guard, pre: seq<seq<string>>, row: seq<string>, post1: seq<seq<string>>, post2: seq<seq<string>>,
                                             c: Columns, sanitize: string -> string)
    requires ProcessRow(g, row, c, sanitize) == Stopped
    ensures IntakeData(g, pre + [row] + post1, c, sanitize) == IntakeData(g, pre + [row] + post2, c, sanitize)
    decreases |pre|
  {
    if pre == [] {
      assert (pre + [row] + post1)[0] == row == (pre + [row] + post2)[0];
    } else {
      StopsAtIncomplete(g, pre[1..], row, post1, post2, c, sanitize);
      assert (pre + [row] + post1)[0] == pre[0] && (pre + [row] + post1)[1..] == pre[1..] + [row] + post1;
      assert (pre + [row] + post2)[0] == pre[0] && (pre + [row] + post2)[1..] == pre[1..] + [row] + post2;
    }
  }

  /** Every listed song comes from a data row that yielded it, and there are
      no more songs than data rows. */
  lemma {:induction false} SongsFromRows(g: Guard, data: seq<seq<string>>, c: Columns, sanitize: string -> string)
    requires IntakeData(g, data, c, sanitize).Success?
    ensures |IntakeData(g, data, c, sanitize).value| <= |data|
    ensures forall song :: song in IntakeData(g, data, c, sanitize).value ==>
      exists row :: row in data && ProcessRow(g, row, c, sanitize) == Kept(song)
    decreases |data|
  {
    if data != [] && !ProcessRow(g, data[0], c, sanitize).Stopped? {
      SongsFromRows(g, data[1..], c, sanitize);
      forall song | song in IntakeData(g, data, c, sanitize).value
        ensures exists row :: row in data && ProcessRow(g, row, c, sanitize) == Kept(song)
      {
        if song !in IntakeData(g, data[1..], c, sanitize).value {
          assert data[0] in data;
        } else {
          var row :| row in data[1..] && ProcessRow(g, row, c, sanitize) == Kept(song);
          assert row in data;
        }
      }
    }
  }

  /** With the guard as written, a sheet whose only data row holds exactly
      `end_ts` fields ends the run with `IndexError`; the corrected guard
      passes over that row and yields an empty list. */
  lemma {:induction false} OffByOneEndsRun(header: seq<string>, row: seq<string>, c: Columns, sanitize: string -> string)
    requires c.endTs >= 0 && |row| == c.endTs
    ensures SongList(AsWritten, [header, row], c, sanitize) == Failure(IndexOutOfRange)
    ensures SongList(Corrected, [header, row], c, sanitize) == Success([])
  {
    GuardOffByOne(row, c, sanitize);
    assert [header, row][1..] == [row];
    assert [row][1..] == [];
    assert IntakeData(Corrected, [row], c, sanitize) == IntakeData(Corrected, [], c, sanitize);
  }

  /** With the corrected guard, and every column other than the mirror flag
      at or before the end-time column, reading the sheet never raises
      `IndexError`. */
  lemma {:induction false} CorrectedNeverOutOfRange(data: seq<seq<string>>, c: Columns, sanitize: string -> string)
    requires 0 <= c.songName <= c.endTs && 0 <= c.songArtist <= c.endTs
    requires 0 <= c.url <= c.endTs && 0 <= c.startTs <= c.endTs && 0 <= c.isMirrored
    ensures IntakeData(Corrected, data, c, sanitize) != Failure(IndexOutOfRange)
    decreases |data|
  {
    if data != [] {
      GuardedReadsInRange(data[0], c, sanitize);
      CorrectedNeverOutOfRange(data[1..], c, sanitize);
    }
  }
}
