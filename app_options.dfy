/**
 * The yt-dlp options that the web application's background job builds (app.py:64-99): a fixed
 * dictionary plus a format expression chosen by whether ffmpeg is installed and by the quality tier.
 */
module AppOptions {
  import opened Wrappers
  import opened Paths
  import opened Formats

  /** The application's download directory, relative to its working directory. */
  const DownloadDir: string := "downloads"

  /**
   * With ffmpeg: merged best video and audio first, then single streams. HLS is excluded from every
   * single stream and from the video half of each merge, but not from the audio half.
   */
  function MergingTable(t: Tier): seq<Selector> {
    match t
    case TierBest => [
      Merged([Ext(Mp4), NotM3u8], [Ext(M4a)]),
      Merged([Ext(Webm), NotM3u8], [Ext(Webm)]),
      Single(Best, [Ext(Mp4), NotM3u8]),
      Single(Best, [Ext(Webm), NotM3u8]),
      Single(Best, [NotM3u8])]
    case Tier720 => [
      Merged([HeightAtMost(H720), Ext(Mp4), NotM3u8], [Ext(M4a)]),
      Merged([HeightAtMost(H720), Ext(Webm), NotM3u8], [Ext(Webm)]),
      Single(Best, [HeightAtMost(H720), Ext(Mp4), NotM3u8]),
      Single(Best, [HeightAtMost(H720), NotM3u8])]
    case Tier1080 => [
      Merged([HeightAtMost(H1080), Ext(Mp4), NotM3u8], [Ext(M4a)]),
      Merged([HeightAtMost(H1080), Ext(Webm), NotM3u8], [Ext(Webm)]),
      Single(Best, [HeightAtMost(H1080), Ext(Mp4), NotM3u8]),
      Single(Best, [HeightAtMost(H1080), NotM3u8])]
    case TierWorst => [
      Single(Worst, [Ext(Mp4), NotM3u8]),
      Single(Worst, [Ext(Webm), NotM3u8]),
      Single(Worst, [NotM3u8])]
  }

  /** Without ffmpeg: single streams that hold both video and audio, none of them HLS. */
  function SingleTable(t: Tier): seq<Selector> {
    match t
    case TierBest => [
      Single(Best, [Ext(Mp4), NotM3u8, HasVideo, HasAudio]),
      Single(Best, [Ext(Webm), NotM3u8, HasVideo, HasAudio]),
      Single(Best, [NotM3u8, HasVideo, HasAudio])]
    case Tier720 => [
      Single(Best, [HeightAtMost(H720), Ext(Mp4), NotM3u8, HasVideo, HasAudio]),
      Single(Best, [HeightAtMost(H720), Ext(Webm), NotM3u8, HasVideo, HasAudio]),
      Single(Best, [HeightAtMost(H720), NotM3u8, HasVideo, HasAudio])]
    case Tier1080 => [
      Single(Best, [HeightAtMost(H1080), Ext(Mp4), NotM3u8, HasVideo, HasAudio]),
      Single(Best, [HeightAtMost(H1080), Ext(Webm), NotM3u8, HasVideo, HasAudio]),
      Single(Best, [HeightAtMost(H1080), NotM3u8, HasVideo, HasAudio])]
    case TierWorst => [
      Single(Worst, [Ext(Mp4), NotM3u8, HasVideo, HasAudio]),
      Single(Worst, [Ext(Webm), NotM3u8, HasVideo, HasAudio]),
      Single(Worst, [NotM3u8, HasVideo, HasAudio])]
  }

  /** The format alternatives; None: the tier is not recognised and `format` stays unset. */
  function AppFormat(hasFfmpeg: bool, quality: string): Option<seq<Selector>> {
    match TierOf(quality)
    case None => None
    case Some(t) => Some(if hasFfmpeg then MergingTable(t) else SingleTable(t))
  }

  /** The option dictionary of `download_video_task`. */
  function Options(hasFfmpeg: bool, quality: string): (r: YdlOptions)
    ensures r.outtmpl == Join(DownloadDir, "%(title)s.%(ext)s")
    ensures r.noplaylist && !r.preferFreeFormats && r.progressHook
    ensures r.mergeOutputFormat == (if hasFfmpeg then Some("mp4") else None)
    ensures r.format.Some? <==> quality in {"best", "720p", "1080p", "worst"}
  {
    var f := AppFormat(hasFfmpeg, quality);
    YdlOptions(
      outtmpl := Join(DownloadDir, "%(title)s.%(ext)s"),
      noplaylist := true,
      preferFreeFormats := false,
      noWarnings := None,
      formatSort := FormatSort,
      progressHook := true,
      mergeOutputFormat := if hasFfmpeg then Some("mp4") else None,
      format := if f.Some? then Some(Render(f.value)) else None)
  }

  lemma MergingTableShape(t: Tier)
    ensures MergingTable(t) != [] && AllCarry(MergingTable(t), NotM3u8)
    ensures t == Tier720 ==> AllCarry(MergingTable(t), HeightAtMost(H720))
    ensures t == Tier1080 ==> AllCarry(MergingTable(t), HeightAtMost(H1080))
    ensures t != TierWorst ==> MergingTable(t)[0].Merged?
  {
  }

  lemma SingleTableShape(t: Tier)
    ensures SingleTable(t) != [] && AllCarry(SingleTable(t), NotM3u8)
    ensures t == Tier720 ==> AllCarry(SingleTable(t), HeightAtMost(H720))
    ensures t == Tier1080 ==> AllCarry(SingleTable(t), HeightAtMost(H1080))
    ensures AllSingle(SingleTable(t)) && AllCarry(SingleTable(t), HasVideo) && AllCarry(SingleTable(t), HasAudio)
  {
    var ss := SingleTable(t);
    forall i | 0 <= i < |ss|
      ensures ss[i].Single? && HasFilter(ss[i], NotM3u8) && HasFilter(ss[i], HasVideo) && HasFilter(ss[i], HasAudio)
      ensures t == Tier720 ==> HasFilter(ss[i], HeightAtMost(H720))
      ensures t == Tier1080 ==> HasFilter(ss[i], HeightAtMost(H1080))
    {
      if i == 0 {} else if i == 1 {} else {}
    }
  }

  /** The filters that every alternative of a table carries. */
  lemma TableShape(hasFfmpeg: bool, quality: string)
    requires AppFormat(hasFfmpeg, quality).Some?
    ensures AppFormat(hasFfmpeg, quality).value != []
    ensures AllCarry(AppFormat(hasFfmpeg, quality).value, NotM3u8)
    ensures quality == "720p" ==> AllCarry(AppFormat(hasFfmpeg, quality).value, HeightAtMost(H720))
    ensures quality == "1080p" ==> AllCarry(AppFormat(hasFfmpeg, quality).value, HeightAtMost(H1080))
    ensures !hasFfmpeg ==> AllSingle(AppFormat(hasFfmpeg, quality).value)
    ensures !hasFfmpeg ==> AllCarry(AppFormat(hasFfmpeg, quality).value, HasVideo)
    ensures !hasFfmpeg ==> AllCarry(AppFormat(hasFfmpeg, quality).value, HasAudio)
  {
    MergingTableShape(TierOf(quality).value);
    SingleTableShape(TierOf(quality).value);
  }

  /**
   * Every alternative, for every setting, contains the HLS exclusion somewhere; in a merged alternative
   * it sits on the video half only (see MergedAudioAdmitsHls).
   */
  lemma AlternativesAvoidHls(hasFfmpeg: bool, quality: string)
    requires quality in {"best", "720p", "1080p", "worst"}
    ensures forall alt :: alt in Alternatives(Options(hasFfmpeg, quality).format.value) ==>
      Contains(alt, "[protocol!=m3u8]")
  {
    var ss := AppFormat(hasFfmpeg, quality).value;
    TableShape(hasFfmpeg, quality);
    assert ss != [] && AllCarry(ss, NotM3u8);
    FilterTexts();
    EveryAlternativeContainsText(ss, NotM3u8, "[protocol!=m3u8]");
  }

  /** Without ffmpeg nothing is merged, and every alternative demands both a video and an audio codec. */
  lemma WithoutFfmpegSingleStreams(quality: string)
    requires quality in {"best", "720p", "1080p", "worst"}
    ensures forall alt :: alt in Alternatives(Options(false, quality).format.value) ==> '+' !in alt
    ensures forall alt :: alt in Alternatives(Options(false, quality).format.value) ==> Contains(alt, "[vcodec!=none]")
    ensures forall alt :: alt in Alternatives(Options(false, quality).format.value) ==> Contains(alt, "[acodec!=none]")
  {
    var ss := AppFormat(false, quality).value;
    SingleTableShape(TierOf(quality).value);
    SingleStreamAlternatives(ss);
  }

  /** The 720p and 1080p tiers cap the height in every alternative. */
  lemma HeightTiersCapped(hasFfmpeg: bool, quality: string)
    ensures quality == "720p" ==>
      forall alt :: alt in Alternatives(Options(hasFfmpeg, quality).format.value) ==> Contains(alt, "[height<=720]")
    ensures quality == "1080p" ==>
      forall alt :: alt in Alternatives(Options(hasFfmpeg, quality).format.value) ==> Contains(alt, "[height<=1080]")
  {
    if quality == "720p" {
      var ss := AppFormat(hasFfmpeg, quality).value;
      TableShape(hasFfmpeg, quality);
      FilterTexts();
      EveryAlternativeContainsText(ss, HeightAtMost(H720), "[height<=720]");
    } else if quality == "1080p" {
      var ss := AppFormat(hasFfmpeg, quality).value;
      TableShape(hasFfmpeg, quality);
      FilterTexts();
      EveryAlternativeContainsText(ss, HeightAtMost(H1080), "[height<=1080]");
    }
  }

  /** With ffmpeg the best and capped tiers first try a separately fetched video and audio stream merged together. */
  lemma WithFfmpegPrefersMerge(quality: string)
    requires quality in {"best", "720p", "1080p"}
    ensures '+' in Alternatives(Options(true, quality).format.value)[0]
  {
    var ss := AppFormat(true, quality).value;
    MergingTableShape(TierOf(quality).value);
    NoSeparatorInside(ss);
    SplitRender(ss);
    MergedHasPlus(ss[0]);
  }

  /**
   * The merged alternatives exclude HLS on the video half only: the audio half carries no
   * `[protocol!=m3u8]`, so yt-dlp may still pick an HLS audio stream. The command-line downloader
   * filters both halves (DownloadYoutube.MergedHalvesAvoidHls).
   */
  lemma MergedAudioAdmitsHls(t: Tier)
    ensures forall i :: 0 <= i < |MergingTable(t)| && MergingTable(t)[i].Merged? ==>
      NotM3u8 in MergingTable(t)[i].video && NotM3u8 !in MergingTable(t)[i].audio
    ensures t != TierWorst ==> MergingTable(t)[0].Merged? && MergingTable(t)[1].Merged?
  {
    var ss := MergingTable(t);
    forall i | 0 <= i < |ss| && ss[i].Merged?
      ensures NotM3u8 in ss[i].video && NotM3u8 !in ss[i].audio
    {
      if i == 0 {} else if i == 1 {} else {}
    }
  }

  /** The same at the level of text: the rendered audio half of a merge lacks `[protocol!=m3u8]`. */
  lemma MergedAudioTextAdmitsHls(t: Tier, i: int)
    requires 0 <= i < |MergingTable(t)| && MergingTable(t)[i].Merged?
    ensures Contains(RenderFilters(MergingTable(t)[i].video), "[protocol!=m3u8]")
    ensures !Contains(RenderFilters(MergingTable(t)[i].audio), "[protocol!=m3u8]")
  {
    var s := MergingTable(t)[i];
    MergedAudioAdmitsHls(t);
    FilterTexts();
    FiltersContain(s.video, NotM3u8);
    assert Ext(Mp4) !in s.audio by {
      if i == 0 {} else if i == 1 {} else {}
    }
    FiltersLackHlsExclusion(s.audio);
  }
}
