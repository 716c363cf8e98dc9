/**
 * The part of each source clip that is kept: a song is widened by the fade
 * length on both sides and clamped to its own length; the countdown is cut
 * at its configured end, clamped to its length, and never widened.
 */
module Trim {

  /** The `[start, end]` arguments handed to `subclipped`, in seconds. */
  datatype Window = Window(start: real, end: real)
  {
    function Length(): real {
      end - start
    }
  }

  function Max(a: real, b: real): (m: real)
    ensures m >= a && m >= b && (m == a || m == b)
  {
    if a >= b then a else b
  }

  function Min(a: real, b: real): (m: real)
    ensures m <= a && m <= b && (m == a || m == b)
  {
    if a <= b then a else b
  }

  /** A song's window: the requested `[startTime, endTime]` padded by `fade`
      on both sides, then kept within `[0, duration]` at the side each bound
      could cross. */
  function SongWindow(startTime: real, endTime: real, fade: real, duration: real): (w: Window)
    ensures w.start >= 0.0 && w.end <= duration
    ensures w.start >= startTime - fade && (w.start == 0.0 || w.start == startTime - fade)
    ensures w.end <= endTime + fade && (w.end == duration || w.end == endTime + fade)
  {
    Window(Max(0.0, startTime - fade), Min(duration, endTime + fade))
  }

  /** The countdown's window: its configured start as it is, and its
      configured end cut at the countdown's length. */
  function CountdownWindow(cdStart: real, cdEnd: real, duration: real): (w: Window)
    ensures w.start == cdStart
    ensures w.end <= duration && w.end <= cdEnd && (w.end == cdEnd || w.end == duration)
  {
    Window(cdStart, Min(cdEnd, duration))
  }

  /** With a non-negative fade, the window covers the whole requested
      segment whenever that segment lies inside the clip. */
  lemma SongWindowCovers(startTime: real, endTime: real, fade: real, duration: real)
    requires fade >= 0.0 && 0.0 <= startTime && endTime <= duration
    ensures SongWindow(startTime, endTime, fade, duration).start <= startTime
    ensures endTime <= SongWindow(startTime, endTime, fade, duration).end
  {
  }

  /** When the padding fits inside the clip it is applied in full, so the
      window is longer than the request by exactly twice the fade. */
  lemma SongWindowPadded(startTime: real, endTime: real, fade: real, duration: real)
    requires fade <= startTime && endTime + fade <= duration
    ensures SongWindow(startTime, endTime, fade, duration) == Window(startTime - fade, endTime + fade)
    ensures SongWindow(startTime, endTime, fade, duration).Length() == endTime - startTime + 2.0 * fade
  {
  }

  /** A request that starts before it ends, inside the clip, gives a window
      of positive length. */
  lemma SongWindowNonEmpty(startTime: real, endTime: real, fade: real, duration: real)
    requires fade >= 0.0 && 0.0 <= startTime < endTime <= duration
    ensures SongWindow(startTime, endTime, fade, duration).Length() > 0.0
  {
  }

  /** The script adds no check of its own on a request that starts past the
      end of its clip: with a 2 s fade, a song asked for from 5 s to 6 s of a
      3 s clip is handed the empty window `[3, 3]`, and one asked for from
      10 s to 11 s the inverted window `[8, 3]`, which starts past the end of
      the clip. */
  lemma SongWindowUnchecked()
    ensures SongWindow(5.0, 6.0, 2.0, 3.0) == Window(3.0, 3.0)
    ensures SongWindow(10.0, 11.0, 2.0, 3.0) == Window(8.0, 3.0)
  {
  }

  /** The countdown is never padded: an end inside the countdown is kept
      exactly. */
  lemma CountdownUnpadded(cdStart: real, cdEnd: real, duration: real)
    requires cdEnd <= duration
    ensures CountdownWindow(cdStart, cdEnd, duration) == Window(cdStart, cdEnd)
  {
  }

  /** With the settings' defaults, start 0 and end 0, the countdown window is
      empty. */
  lemma DefaultCountdownEmpty(duration: real)
    requires duration >= 0.0
    ensures CountdownWindow(0.0, 0.0, duration).Length() == 0.0
  {
  }
}
