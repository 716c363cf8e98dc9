/**
 * Where a downloaded clip lives. yt-dlp is told to write to an output
 * template; in audio-only mode its audio extractor adds the `.mp3` itself,
 * so the template leaves the extension out and the script adds it back when
 * it looks the file up.
 */
module Paths {

  /** `file_format`: the extension of every download and of the final
      render. */
  function FileFormat(mp3Only: bool): (f: string)
    ensures (f == "mp3") == mp3Only
    ensures f == "mp3" || f == "mp4"
  {
    if mp3Only then "mp3" else "mp4"
  }

  /** `out_path`, the template handed to yt-dlp. */
  function OutputTemplate(name: string, mp3Only: bool): (t: string)
    ensures |t| == 10 + |name| + (if mp3Only then 0 else 4)
    ensures t[..10] == "downloads/" && t[10..10 + |name|] == name
    ensures t[10 + |name|..] == (if mp3Only then "" else ".mp4")
  {
    "downloads/" + name + (if !mp3Only then "." + FileFormat(mp3Only) else "")
  }

  /** The path `download_youtube` checks for an earlier download and
      returns: the template with the extension added back in audio-only
      mode. */
  function DownloadPath(name: string, mp3Only: bool): (p: string)
    ensures |p| == 14 + |name| && p[..10] == "downloads/" && p[10..10 + |name|] == name
  {
    OutputTemplate(name, mp3Only) + (if mp3Only then "." + FileFormat(mp3Only) else "")
  }

  /** The path the clean-up pass removes. */
  function CleanupPath(name: string, mp3Only: bool): (p: string)
    ensures |p| == 14 + |name| && p[..10] == "downloads/" && p[10..10 + |name|] == name
    ensures p[10 + |name|..] == "." + FileFormat(mp3Only)
  {
    "downloads/" + name + "." + FileFormat(mp3Only)
  }

  /** In both modes a clip is found at `downloads/<name>.<format>`: the
      existence check, the returned path and the clean-up all name the same
      file. */
  lemma {:induction false} DownloadPathNamed(name: string, mp3Only: bool)
    ensures DownloadPath(name, mp3Only) == "downloads/" + name + "." + FileFormat(mp3Only)
    ensures DownloadPath(name, mp3Only) == CleanupPath(name, mp3Only)
  {
    if mp3Only {
      assert OutputTemplate(name, mp3Only) == "downloads/" + name + "";
    } else {
      assert DownloadPath(name, mp3Only) == OutputTemplate(name, mp3Only) + "";
    }
  }

  /** In audio-only mode yt-dlp is given the path without its extension; in
      video mode it is given the full path. */
  lemma {:induction false} TemplateLacksExtension(name: string, mp3Only: bool)
    ensures mp3Only ==> OutputTemplate(name, mp3Only) + ".mp3" == DownloadPath(name, mp3Only)
    ensures !mp3Only ==> OutputTemplate(name, mp3Only) == DownloadPath(name, mp3Only)
  {
    DownloadPathNamed(name, mp3Only);
  }

  /** Different names never share a download: the path determines the
      name. */
  lemma {:induction false} DownloadPathInjective(a: string, b: string, mp3Only: bool)
    requires DownloadPath(a, mp3Only) == DownloadPath(b, mp3Only)
    ensures a == b
  {
    DownloadPathNamed(a, mp3Only);
    DownloadPathNamed(b, mp3Only);
    var pa := DownloadPath(a, mp3Only);
    assert |a| == |b|;
    assert a == pa[10..10 + |a|];
    assert b == pa[10..10 + |b|];
  }

  /** `final/final_output.<ext>`. */
  function FinalPath(ext: string): string
  {
    "final/final_output." + ext
  }

  /** The two files of the final render in video mode, or the one in
      audio-only mode. */
  function RenderOutputs(mp3Only: bool): (outputs: seq<string>)
    ensures 1 <= |outputs| <= 2 && outputs[|outputs| - 1] == FinalPath("mp3")
  {
    if !mp3Only then [FinalPath(FileFormat(mp3Only)), FinalPath("mp3")]
    else [FinalPath(FileFormat(mp3Only))]
  }

  /** Every render writes `final/final_output.mp3`; a video file is written
      exactly in video mode. */
  lemma {:induction false} RenderOutputsByMode(mp3Only: bool)
    ensures FinalPath("mp3") in RenderOutputs(mp3Only)
    ensures FinalPath("mp4") in RenderOutputs(mp3Only) <==> !mp3Only
    ensures |RenderOutputs(mp3Only)| == if mp3Only then 1 else 2
  {
    assert FinalPath("mp4")[21] == '4' && FinalPath("mp3")[21] == '3';
  }
}
