/**
 * Which effects each clip gets, as symbolic tags in the order they are
 * applied. Video mode adds the visual fades; audio-only mode keeps the
 * audio effects alone; a song not yet mirrored is flipped last.
 */
module Effects {

  /** The moviepy effects the script uses, with their lengths in seconds. */
  datatype Effect =
    | FadeIn(seconds: real)
    | FadeOut(seconds: real)
    | AudioNormalize
    | AudioFadeIn(seconds: real)
    | AudioFadeOut(seconds: real)
    | MirrorX
  {
    /** Effects on the picture, which an audio-only render has no use for. */
    predicate IsVisual() {
      FadeIn? || FadeOut? || MirrorX?
    }
  }

  /** The effects given to a song: the fade list of the mode, then the flip
      when the song is not mirrored yet and the render has a picture. */
  function SongEffects(mp3Only: bool, isMirrored: bool, fade: real): (e: seq<Effect>)
    ensures |e| == (if mp3Only then 3 else if isMirrored then 5 else 6)
  {
    var base :=
      if !mp3Only then [FadeIn(fade), FadeOut(fade), AudioNormalize, AudioFadeIn(fade), AudioFadeOut(fade)]
      else [AudioNormalize, AudioFadeIn(fade), AudioFadeOut(fade)];
    if !isMirrored && !mp3Only then base + [MirrorX] else base
  }

  /** The effects given to the countdown template. */
  function CountdownEffects(mp3Only: bool, cdFade: real): (e: seq<Effect>)
    ensures |e| == (if mp3Only then 2 else 4)
  {
    if !mp3Only then [FadeIn(cdFade), FadeOut(cdFade), AudioNormalize, AudioFadeOut(cdFade)]
    else [AudioNormalize, AudioFadeOut(cdFade)]
  }

  /** A song gets the three audio effects in every mode, the two visual fades
      exactly in video mode, and the flip exactly when it is not mirrored yet
      in video mode; every fade lasts `fade`. */
  lemma SongEffectSet(mp3Only: bool, isMirrored: bool, fade: real, x: Effect)
    ensures x in SongEffects(mp3Only, isMirrored, fade) <==>
      x == AudioNormalize || x == AudioFadeIn(fade) || x == AudioFadeOut(fade) ||
      (!mp3Only && (x == FadeIn(fade) || x == FadeOut(fade))) ||
      (!mp3Only && !isMirrored && x == MirrorX)
  {
  }

  /** The flip, when present, comes after every other effect, and nothing is
      listed twice. */
  lemma SongEffectOrder(mp3Only: bool, isMirrored: bool, fade: real)
    ensures MirrorX in SongEffects(mp3Only, isMirrored, fade) ==>
      SongEffects(mp3Only, isMirrored, fade)[|SongEffects(mp3Only, isMirrored, fade)| - 1] == MirrorX
    ensures forall i, j :: 0 <= i < j < |SongEffects(mp3Only, isMirrored, fade)| ==>
      SongEffects(mp3Only, isMirrored, fade)[i] != SongEffects(mp3Only, isMirrored, fade)[j]
  {
  }

  /** The countdown gets normalisation and the audio fade-out in every mode
      and the two visual fades in video mode; it never fades its audio in and
      is never flipped. */
  lemma CountdownEffectSet(mp3Only: bool, cdFade: real, x: Effect)
    ensures x in CountdownEffects(mp3Only, cdFade) <==>
      x == AudioNormalize || x == AudioFadeOut(cdFade) ||
      (!mp3Only && (x == FadeIn(cdFade) || x == FadeOut(cdFade)))
    ensures x in CountdownEffects(mp3Only, cdFade) ==> !x.AudioFadeIn? && !x.MirrorX?
  {
  }

  /** An audio-only render attaches no visual effect to any clip. */
  lemma AudioOnlyHasNoVisual(isMirrored: bool, fade: real, cdFade: real)
    ensures forall x :: x in SongEffects(true, isMirrored, fade) ==> !x.IsVisual()
    ensures forall x :: x in CountdownEffects(true, cdFade) ==> !x.IsVisual()
  {
  }

  /** The list without the given effect kind, order kept. */
  function WithoutAudioFadeIn(e: seq<Effect>): seq<Effect>
    decreases |e|
  {
    if e == [] then []
    else (if e[0].AudioFadeIn? then [] else [e[0]]) + WithoutAudioFadeIn(e[1..])
  }

  /** The countdown is treated like a song that is already mirrored, less the
      audio fade-in, in the same order. */
  lemma CountdownIsSongWithoutFadeIn(mp3Only: bool, cdFade: real)
    ensures CountdownEffects(mp3Only, cdFade) == WithoutAudioFadeIn(SongEffects(mp3Only, true, cdFade))
  {
    var tail := [AudioNormalize, AudioFadeIn(cdFade), AudioFadeOut(cdFade)];
    assert WithoutAudioFadeIn(tail[2..]) == [AudioFadeOut(cdFade)];
    assert WithoutAudioFadeIn(tail) == [AudioNormalize, AudioFadeOut(cdFade)];
    if !mp3Only {
      var all := [FadeIn(cdFade), FadeOut(cdFade)] + tail;
      assert all[1..][1..] == tail;
      assert WithoutAudioFadeIn(all) == [FadeIn(cdFade), FadeOut(cdFade)] + WithoutAudioFadeIn(tail);
    }
  }
}
