/**
 * The yt-dlp options of the re-download script (redownload_fixed.py:36-54): single streams only, with
 * HLS, format 96 and streams lacking video or audio excluded from every alternative, and an output
 * template that marks the file with `_fixed`. The script never sets a merge format.
 */
module RedownloadFixed {
  import opened Wrappers
  import opened Paths
  import opened Formats

  /** The filters every alternative of the script ends with. */
  const Strict: seq<Filter> := [NotM3u8, NotFormatId96, HasVideo, HasAudio]

  function Table(t: Tier): seq<Selector> {
    match t
    case TierBest => [
      Single(Best, [Ext(Mp4)] + Strict),
      Single(Best, [Ext(Webm)] + Strict),
      Single(Best, Strict)]
    case Tier720 => [
      Single(Best, [HeightAtMost(H720), Ext(Mp4)] + Strict),
      Single(Best, [HeightAtMost(H720), Ext(Webm)] + Strict),
      Single(Best, [HeightAtMost(H720)] + Strict)]
    case Tier1080 => [
      Single(Best, [HeightAtMost(H1080), Ext(Mp4)] + Strict),
      Single(Best, [HeightAtMost(H1080), Ext(Webm)] + Strict),
      Single(Best, [HeightAtMost(H1080)] + Strict)]
    case TierWorst => [
      Single(Worst, [Ext(Mp4)] + Strict),
      Single(Worst, [Ext(Webm)] + Strict),
      Single(Worst, Strict)]
  }

  function ScriptFormat(quality: string): Option<seq<Selector>> {
    match TierOf(quality)
    case None => None
    case Some(t) => Some(Table(t))
  }

  /** The option dictionary of `redownload_video(url, output_dir, quality)`; `output_dir` is in normal form. */
  function Options(outputDir: string, quality: string): (r: YdlOptions)
    ensures r.outtmpl == Join(outputDir, "%(title)s_fixed.%(ext)s")
    ensures Name(r.outtmpl) == "%(title)s_fixed.%(ext)s"
    ensures r.noplaylist && !r.preferFreeFormats && r.noWarnings.None? && !r.progressHook
    ensures r.formatSort == FormatSort
    ensures r.mergeOutputFormat.None?
    ensures r.format.Some? <==> quality in {"best", "720p", "1080p", "worst"}
  {
    NameOfJoin(outputDir, "%(title)s_fixed.%(ext)s");
    var f := ScriptFormat(quality);
    YdlOptions(
      outtmpl := Join(outputDir, "%(title)s_fixed.%(ext)s"),
      noplaylist := true,
      preferFreeFormats := false,
      noWarnings := None,
      formatSort := FormatSort,
      progressHook := false,
      mergeOutputFormat := None,
      format := if f.Some? then Some(Render(f.value)) else None)
  }

  lemma TableShape(t: Tier)
    ensures |Table(t)| == 3 && AllSingle(Table(t))
    ensures AllCarry(Table(t), NotM3u8) && AllCarry(Table(t), NotFormatId96)
    ensures AllCarry(Table(t), HasVideo) && AllCarry(Table(t), HasAudio)
    ensures t == Tier720 ==> AllCarry(Table(t), HeightAtMost(H720))
    ensures t == Tier1080 ==> AllCarry(Table(t), HeightAtMost(H1080))
    ensures t == TierBest ==>
      HasFilter(Table(t)[0], Ext(Mp4)) && HasFilter(Table(t)[1], Ext(Webm)) &&
      forall c :: !HasFilter(Table(t)[2], Ext(c))
  {
    var ss := Table(t);
    forall i | 0 <= i < |ss|
      ensures ss[i].Single?
      ensures HasFilter(ss[i], NotM3u8) && HasFilter(ss[i], NotFormatId96)
      ensures HasFilter(ss[i], HasVideo) && HasFilter(ss[i], HasAudio)
      ensures t == Tier720 ==> HasFilter(ss[i], HeightAtMost(H720))
      ensures t == Tier1080 ==> HasFilter(ss[i], HeightAtMost(H1080))
    {
      if i == 0 {} else if i == 1 {} else {}
    }
  }

  /**
   * Every alternative, for every quality, excludes HLS and format 96 and demands both a video and an
   * audio codec; no alternative merges two streams.
   */
  lemma EveryAlternativeStrict(outputDir: string, quality: string)
    requires quality in {"best", "720p", "1080p", "worst"}
    ensures forall alt :: alt in Alternatives(Options(outputDir, quality).format.value) ==>
      Contains(alt, "[protocol!=m3u8]") && Contains(alt, "[format_id!=96]")
    ensures forall alt :: alt in Alternatives(Options(outputDir, quality).format.value) ==>
      '+' !in alt && Contains(alt, "[vcodec!=none]") && Contains(alt, "[acodec!=none]")
  {
    var ss := ScriptFormat(quality).value;
    TableShape(TierOf(quality).value);
    assert ss != [] && AllSingle(ss) && AllCarry(ss, HasVideo) && AllCarry(ss, HasAudio);
    assert AllCarry(ss, NotM3u8) && AllCarry(ss, NotFormatId96);
    StrictAlternatives(ss);
  }

  /** The string-level form of the strict filters, stated on the alternatives alone. */
  lemma StrictAlternatives(ss: seq<Selector>)
    requires ss != [] && AllSingle(ss) && AllCarry(ss, HasVideo) && AllCarry(ss, HasAudio)
    requires AllCarry(ss, NotM3u8) && AllCarry(ss, NotFormatId96)
    ensures forall alt :: alt in Alternatives(Render(ss)) ==>
      Contains(alt, "[protocol!=m3u8]") && Contains(alt, "[format_id!=96]")
    ensures forall alt :: alt in Alternatives(Render(ss)) ==>
      '+' !in alt && Contains(alt, "[vcodec!=none]") && Contains(alt, "[acodec!=none]")
  {
    SingleStreamAlternatives(ss);
    FilterTexts();
    EveryAlternativeContainsText(ss, NotM3u8, "[protocol!=m3u8]");
    EveryAlternativeContainsText(ss, NotFormatId96, "[format_id!=96]");
  }

  /** The 720p and 1080p tiers cap the height in every alternative. */
  lemma HeightTiersCapped(outputDir: string, quality: string)
    ensures quality == "720p" ==>
      forall alt :: alt in Alternatives(Options(outputDir, quality).format.value) ==> Contains(alt, "[height<=720]")
    ensures quality == "1080p" ==>
      forall alt :: alt in Alternatives(Options(outputDir, quality).format.value) ==> Contains(alt, "[height<=1080]")
  {
    if quality == "720p" {
      TableShape(TierOf(quality).value);
      var ss := ScriptFormat(quality).value;
      FilterTexts();
      EveryAlternativeContainsText(ss, HeightAtMost(H720), "[height<=720]");
    } else if quality == "1080p" {
      TableShape(TierOf(quality).value);
      var ss := ScriptFormat(quality).value;
      FilterTexts();
      EveryAlternativeContainsText(ss, HeightAtMost(H1080), "[height<=1080]");
    }
  }

  /** The best tier tries an mp4 stream, then a webm stream, then a stream in any container. */
  lemma BestTierContainerOrder(outputDir: string)
    ensures |Alternatives(Options(outputDir, "best").format.value)| == 3
    ensures Contains(Alternatives(Options(outputDir, "best").format.value)[0], "[ext=mp4]")
    ensures Contains(Alternatives(Options(outputDir, "best").format.value)[1], "[ext=webm]")
    ensures !Contains(Alternatives(Options(outputDir, "best").format.value)[2], "[ext=")
  {
    var ss := Table(TierBest);
    TableShape(TierBest);
    assert ScriptFormat("best") == Some(ss);
    ContainerOrder(ss);
  }

  /** The string-level form of the container order, stated on the alternatives alone. */
  lemma ContainerOrder(ss: seq<Selector>)
    requires |ss| == 3 && ss[2].Single?
    requires HasFilter(ss[0], Ext(Mp4)) && HasFilter(ss[1], Ext(Webm))
    requires forall c :: !HasFilter(ss[2], Ext(c))
    ensures |Alternatives(Render(ss))| == 3
    ensures Contains(Alternatives(Render(ss))[0], "[ext=mp4]")
    ensures Contains(Alternatives(Render(ss))[1], "[ext=webm]")
    ensures !Contains(Alternatives(Render(ss))[2], "[ext=")
  {
    AlternativeAt(ss, 0);
    AlternativeAt(ss, 1);
    AlternativeAt(ss, 2);
    SelectorContains(ss[0], Ext(Mp4));
    SelectorContains(ss[1], Ext(Webm));
    FilterTexts();
    LacksContainer(ss[2]);
  }
}
