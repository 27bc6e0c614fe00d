/**
 * The yt-dlp options of the command-line downloader (download_youtube.py:43-77): the same shape as the
 * web application's options, with a caller-chosen output directory, warnings left on, no progress hook,
 * HLS excluded on the audio stream of a merge as well, and, without ffmpeg, the codec demands on the
 * last alternative only.
 */
module DownloadYoutube {
  import opened Wrappers
  import opened Paths
  import opened Formats

  /** With ffmpeg: merged video and audio first, then single streams. */
  function MergingTable(t: Tier): seq<Selector> {
    match t
    case TierBest => [
      Merged([Ext(Mp4), NotM3u8], [Ext(M4a), NotM3u8]),
      Merged([Ext(Webm), NotM3u8], [Ext(Webm), NotM3u8]),
      Single(Best, [Ext(Mp4), NotM3u8]),
      Single(Best, [Ext(Webm), NotM3u8]),
      Single(Best, [NotM3u8])]
    case Tier720 => [
      Merged([HeightAtMost(H720), Ext(Mp4), NotM3u8], [Ext(M4a), NotM3u8]),
      Merged([HeightAtMost(H720), Ext(Webm), NotM3u8], [Ext(Webm), NotM3u8]),
      Single(Best, [HeightAtMost(H720), Ext(Mp4), NotM3u8]),
      Single(Best, [HeightAtMost(H720), NotM3u8])]
    case Tier1080 => [
      Merged([HeightAtMost(H1080), Ext(Mp4), NotM3u8], [Ext(M4a), NotM3u8]),
      Merged([HeightAtMost(H1080), Ext(Webm), NotM3u8], [Ext(Webm), NotM3u8]),
      Single(Best, [HeightAtMost(H1080), Ext(Mp4), NotM3u8]),
      Single(Best, [HeightAtMost(H1080), NotM3u8])]
    case TierWorst => [
      Single(Worst, [Ext(Mp4), NotM3u8]),
      Single(Worst, [Ext(Webm), NotM3u8]),
      Single(Worst, [NotM3u8])]
  }

  /** Without ffmpeg: single streams; only the last, container-free alternative demands both codecs. */
  function SingleTable(t: Tier): seq<Selector> {
    match t
    case TierBest => [
      Single(Best, [Ext(Mp4), NotM3u8]),
      Single(Best, [Ext(Webm), NotM3u8]),
      Single(Best, [NotM3u8, HasVideo, HasAudio])]
    case Tier720 => [
      Single(Best, [HeightAtMost(H720), Ext(Mp4), NotM3u8]),
      Single(Best, [HeightAtMost(H720), Ext(Webm), NotM3u8]),
      Single(Best, [HeightAtMost(H720), NotM3u8, HasVideo, HasAudio])]
    case Tier1080 => [
      Single(Best, [HeightAtMost(H1080), Ext(Mp4), NotM3u8]),
      Single(Best, [HeightAtMost(H1080), Ext(Webm), NotM3u8]),
      Single(Best, [HeightAtMost(H1080), NotM3u8, HasVideo, HasAudio])]
    case TierWorst => [
      Single(Worst, [Ext(Mp4), NotM3u8]),
      Single(Worst, [Ext(Webm), NotM3u8]),
      Single(Worst, [NotM3u8, HasVideo, HasAudio])]
  }

  function ScriptFormat(hasFfmpeg: bool, quality: string): Option<seq<Selector>> {
    match TierOf(quality)
    case None => None
    case Some(t) => Some(if hasFfmpeg then MergingTable(t) else SingleTable(t))
  }

  /** The option dictionary of `download_video(url, output_dir, quality)`; `output_dir` is in normal form. */
  function Options(outputDir: string, hasFfmpeg: bool, quality: string): (r: YdlOptions)
    ensures r.outtmpl == Join(outputDir, "%(title)s.%(ext)s")
    ensures Name(r.outtmpl) == "%(title)s.%(ext)s"
    ensures r.noplaylist && !r.preferFreeFormats && r.noWarnings == Some(false) && !r.progressHook
    ensures r.formatSort == FormatSort
    ensures r.mergeOutputFormat == (if hasFfmpeg then Some("mp4") else None)
    ensures r.format.Some? <==> quality in {"best", "720p", "1080p", "worst"}
  {
    NameOfJoin(outputDir, "%(title)s.%(ext)s");
    var f := ScriptFormat(hasFfmpeg, quality);
    YdlOptions(
      outtmpl := Join(outputDir, "%(title)s.%(ext)s"),
      noplaylist := true,
      preferFreeFormats := false,
      noWarnings := Some(false),
      formatSort := FormatSort,
      progressHook := false,
      mergeOutputFormat := if hasFfmpeg then Some("mp4") else None,
      format := if f.Some? then Some(Render(f.value)) else None)
  }

  lemma MergingTableShape(t: Tier)
    ensures MergingTable(t) != [] && AllCarry(MergingTable(t), NotM3u8)
    ensures t == Tier720 ==> AllCarry(MergingTable(t), HeightAtMost(H720))
    ensures t == Tier1080 ==> AllCarry(MergingTable(t), HeightAtMost(H1080))
  {
    var ss := MergingTable(t);
    forall i | 0 <= i < |ss|
      ensures HasFilter(ss[i], NotM3u8)
      ensures t == Tier720 ==> HasFilter(ss[i], HeightAtMost(H720))
      ensures t == Tier1080 ==> HasFilter(ss[i], HeightAtMost(H1080))
    {
      if i == 0 {} else if i == 1 {} else if i == 2 {} else if i == 3 {} else {}
    }
  }

  lemma SingleTableShape(t: Tier)
    ensures |SingleTable(t)| == 3 && AllSingle(SingleTable(t)) && AllCarry(SingleTable(t), NotM3u8)
    ensures t == Tier720 ==> AllCarry(SingleTable(t), HeightAtMost(H720))
    ensures t == Tier1080 ==> AllCarry(SingleTable(t), HeightAtMost(H1080))
    ensures HasFilter(SingleTable(t)[2], HasVideo) && HasFilter(SingleTable(t)[2], HasAudio)
    ensures forall i :: 0 <= i < 2 ==>
      !HasFilter(SingleTable(t)[i], HasVideo) && !HasFilter(SingleTable(t)[i], HasAudio) &&
      !HasFilter(SingleTable(t)[i], Ext(M4a)) && !HasFilter(SingleTable(t)[i], NotFormatId96)
  {
    var ss := SingleTable(t);
    forall i | 0 <= i < |ss|
      ensures ss[i].Single? && HasFilter(ss[i], NotM3u8)
      ensures t == Tier720 ==> HasFilter(ss[i], HeightAtMost(H720))
      ensures t == Tier1080 ==> HasFilter(ss[i], HeightAtMost(H1080))
    {
      if i == 0 {} else if i == 1 {} else {}
    }
  }

  lemma TableShape(hasFfmpeg: bool, quality: string)
    requires ScriptFormat(hasFfmpeg, quality).Some?
    ensures ScriptFormat(hasFfmpeg, quality).value != []
    ensures AllCarry(ScriptFormat(hasFfmpeg, quality).value, NotM3u8)
    ensures quality == "720p" ==> AllCarry(ScriptFormat(hasFfmpeg, quality).value, HeightAtMost(H720))
    ensures quality == "1080p" ==> AllCarry(ScriptFormat(hasFfmpeg, quality).value, HeightAtMost(H1080))
  {
    MergingTableShape(TierOf(quality).value);
    SingleTableShape(TierOf(quality).value);
  }

  /** Every alternative, for every quality and ffmpeg setting, excludes HLS streams. */
  lemma AlternativesAvoidHls(outputDir: string, hasFfmpeg: bool, quality: string)
    requires quality in {"best", "720p", "1080p", "worst"}
    ensures forall alt :: alt in Alternatives(Options(outputDir, hasFfmpeg, quality).format.value) ==>
      Contains(alt, "[protocol!=m3u8]")
  {
    var ss := ScriptFormat(hasFfmpeg, quality).value;
    TableShape(hasFfmpeg, quality);
    assert ss != [] && AllCarry(ss, NotM3u8);
    FilterTexts();
    EveryAlternativeContainsText(ss, NotM3u8, "[protocol!=m3u8]");
  }

  /** The 720p and 1080p tiers cap the height in every alternative. */
  lemma HeightTiersCapped(outputDir: string, hasFfmpeg: bool, quality: string)
    ensures quality == "720p" ==>
      forall alt :: alt in Alternatives(Options(outputDir, hasFfmpeg, quality).format.value) ==> Contains(alt, "[height<=720]")
    ensures quality == "1080p" ==>
      forall alt :: alt in Alternatives(Options(outputDir, hasFfmpeg, quality).format.value) ==> Contains(alt, "[height<=1080]")
  {
    if quality == "720p" {
      TableShape(hasFfmpeg, quality);
      var ss := ScriptFormat(hasFfmpeg, quality).value;
      FilterTexts();
      EveryAlternativeContainsText(ss, HeightAtMost(H720), "[height<=720]");
    } else if quality == "1080p" {
      TableShape(hasFfmpeg, quality);
      var ss := ScriptFormat(hasFfmpeg, quality).value;
      FilterTexts();
      EveryAlternativeContainsText(ss, HeightAtMost(H1080), "[height<=1080]");
    }
  }

  /** Without ffmpeg nothing is merged. */
  lemma WithoutFfmpegNoMerge(outputDir: string, quality: string)
    requires quality in {"best", "720p", "1080p", "worst"}
    ensures forall alt :: alt in Alternatives(Options(outputDir, false, quality).format.value) ==> '+' !in alt
  {
    var ss := ScriptFormat(false, quality).value;
    SingleTableShape(TierOf(quality).value);
    assert ss != [] && AllSingle(ss);
    NoAlternativeMerges(ss);
  }

  /**
   * Without ffmpeg there are three alternatives and only the last one demands a video and an audio
   * codec; the first two (a container-specific best or worst stream) demand neither.
   */
  lemma WithoutFfmpegOnlyLastDemandsCodecs(outputDir: string, quality: string)
    requires quality in {"best", "720p", "1080p", "worst"}
    ensures |Alternatives(Options(outputDir, false, quality).format.value)| == 3
    ensures Contains(Alternatives(Options(outputDir, false, quality).format.value)[2], "[vcodec!=none]")
    ensures Contains(Alternatives(Options(outputDir, false, quality).format.value)[2], "[acodec!=none]")
    ensures forall i :: 0 <= i < 2 ==>
      !Contains(Alternatives(Options(outputDir, false, quality).format.value)[i], "[vcodec!=none]") &&
      !Contains(Alternatives(Options(outputDir, false, quality).format.value)[i], "[acodec!=none]")
  {
    var ss := ScriptFormat(false, quality).value;
    SingleTableShape(TierOf(quality).value);
    assert |ss| == 3 && AllSingle(ss);
    assert HasFilter(ss[2], HasVideo) && HasFilter(ss[2], HasAudio);
    OnlyLastDemandsCodecs(ss);
  }

  /** The string-level form of the table facts above, stated on the alternatives alone. */
  lemma OnlyLastDemandsCodecs(ss: seq<Selector>)
    requires |ss| == 3 && AllSingle(ss)
    requires HasFilter(ss[2], HasVideo) && HasFilter(ss[2], HasAudio)
    requires forall i :: 0 <= i < 2 ==>
      !HasFilter(ss[i], HasVideo) && !HasFilter(ss[i], HasAudio) &&
      !HasFilter(ss[i], Ext(M4a)) && !HasFilter(ss[i], NotFormatId96)
    ensures |Alternatives(Render(ss))| == 3
    ensures Contains(Alternatives(Render(ss))[2], "[vcodec!=none]")
    ensures Contains(Alternatives(Render(ss))[2], "[acodec!=none]")
    ensures forall i :: 0 <= i < 2 ==>
      !Contains(Alternatives(Render(ss))[i], "[vcodec!=none]") &&
      !Contains(Alternatives(Render(ss))[i], "[acodec!=none]")
  {
    AlternativeAt(ss, 2);
    SelectorContains(ss[2], HasVideo);
    SelectorContains(ss[2], HasAudio);
    FilterTexts();
    forall i | 0 <= i < 2
      ensures !Contains(Alternatives(Render(ss))[i], "[vcodec!=none]")
      ensures !Contains(Alternatives(Render(ss))[i], "[acodec!=none]")
    {
      AlternativeAt(ss, i);
      LacksVideoDemand(ss[i]);
      LacksAudioDemand(ss[i]);
    }
  }

  /** Both halves of every merged alternative exclude HLS, unlike the web application's merges. */
  lemma MergedHalvesAvoidHls(t: Tier)
    ensures forall i :: 0 <= i < |MergingTable(t)| && MergingTable(t)[i].Merged? ==>
      NotM3u8 in MergingTable(t)[i].video && NotM3u8 in MergingTable(t)[i].audio
    ensures t != TierWorst ==> MergingTable(t)[0].Merged? && MergingTable(t)[1].Merged?
  {
    var ss := MergingTable(t);
    forall i | 0 <= i < |ss| && ss[i].Merged?
      ensures NotM3u8 in ss[i].video && NotM3u8 in ss[i].audio
    {
      if i == 0 {} else if i == 1 {} else {}
    }
  }

  /** The same at the level of text: both rendered halves of a merge contain `[protocol!=m3u8]`. */
  lemma MergedHalvesTextAvoidHls(t: Tier, i: int)
    requires 0 <= i < |MergingTable(t)| && MergingTable(t)[i].Merged?
    ensures Contains(RenderFilters(MergingTable(t)[i].video), "[protocol!=m3u8]")
    ensures Contains(RenderFilters(MergingTable(t)[i].audio), "[protocol!=m3u8]")
  {
    var s := MergingTable(t)[i];
    MergedHalvesAvoidHls(t);
    FilterTexts();
    FiltersContain(s.video, NotM3u8);
    FiltersContain(s.audio, NotM3u8);
  }
}
