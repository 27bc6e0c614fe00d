/**
 * The yt-dlp option dictionaries the scripts build, and the format-selection expressions inside them.
 * A format expression is a list of alternatives separated by '/', tried in order; each alternative is
 * either one stream ("best"/"worst" followed by bracketed filters) or a video stream and an audio
 * stream merged by ffmpeg ("bestvideo[...]+bestaudio[...]"). The model keeps an expression as that
 * structure and renders it to the exact text yt-dlp receives.
 */
module Formats {
  import opened Wrappers
  import opened Paths

  datatype Pick = Best | Worst

  /** The containers and height limits the scripts name in filters. */
  datatype Container = Mp4 | Webm | M4a
  datatype Height = H720 | H1080

  /** One bracketed condition of a format alternative. */
  datatype Filter =
    | HeightAtMost(limit: Height)   // [height<=720], [height<=1080]
    | Ext(container: Container)     // [ext=mp4], [ext=webm], [ext=m4a]
    | NotM3u8                       // [protocol!=m3u8]
    | NotFormatId96                 // [format_id!=96]
    | HasVideo                      // [vcodec!=none]
    | HasAudio                      // [acodec!=none]

  /** One alternative of a format expression. */
  datatype Selector =
    | Single(pick: Pick, filters: seq<Filter>)
    | Merged(video: seq<Filter>, audio: seq<Filter>)

  /** The quality tiers the scripts recognise. */
  datatype Tier = TierBest | Tier720 | Tier1080 | TierWorst

  /** The tier a quality string names; None for any other string (the tables then leave `format` unset). */
  function TierOf(quality: string): (t: Option<Tier>)
    ensures t.Some? <==> quality in {"best", "720p", "1080p", "worst"}
    ensures t == Some(Tier720) <==> quality == "720p"
    ensures t == Some(Tier1080) <==> quality == "1080p"
  {
    if quality == "best" then Some(TierBest)
    else if quality == "720p" then Some(Tier720)
    else if quality == "1080p" then Some(Tier1080)
    else if quality == "worst" then Some(TierWorst)
    else None
  }

  /** The keys of a yt-dlp option dictionary that the scripts set; None: the key is absent. */
  datatype YdlOptions = YdlOptions(
    outtmpl: string,
    noplaylist: bool,
    preferFreeFormats: bool,
    noWarnings: Option<bool>,
    formatSort: seq<string>,
    progressHook: bool,
    mergeOutputFormat: Option<string>,
    format: Option<string>)

  /** The `format_sort` list every script passes. */
  const FormatSort: seq<string> := ["ext:mp4", "ext:webm", "res", "codec:h264", "codec:vp9"]

  /** The fixed text of a filter, before its parameter. */
  function Opening(f: Filter): string {
    match f
    case HeightAtMost(_) => "[height<="
    case Ext(_) => "[ext="
    case NotM3u8 => "[protocol!=m3u8"
    case NotFormatId96 => "[format_id!="
    case HasVideo => "[vcodec!=none"
    case HasAudio => "[acodec!=none"
  }

  function ContainerText(c: Container): string {
    match c
    case Mp4 => "mp4"
    case Webm => "webm"
    case M4a => "m4a"
  }

  function HeightText(h: Height): string {
    match h
    case H720 => "720"
    case H1080 => "1080"
  }

  /** The parameter of a filter ("" for the fixed ones). */
  function Param(f: Filter): string {
    match f
    case HeightAtMost(h) => HeightText(h)
    case Ext(c) => ContainerText(c)
    case NotFormatId96 => "96"
    case _ => ""
  }

  function RenderFilter(f: Filter): string {
    Opening(f) + Param(f) + "]"
  }

  function RenderFilters(fs: seq<Filter>): string {
    if fs == [] then "" else RenderFilter(fs[0]) + RenderFilters(fs[1..])
  }

  function PickWord(p: Pick): string {
    match p
    case Best => "best"
    case Worst => "worst"
  }

  function RenderSelector(s: Selector): string {
    match s
    case Single(p, fs) => PickWord(p) + RenderFilters(fs)
    case Merged(v, a) => "bestvideo" + RenderFilters(v) + "+bestaudio" + RenderFilters(a)
  }

  /** The format expression: the alternatives joined by '/'. */
  function Render(ss: seq<Selector>): string {
    if ss == [] then ""
    else if |ss| == 1 then RenderSelector(ss[0])
    else RenderSelector(ss[0]) + "/" + Render(ss[1..])
  }

  /** Each alternative rendered on its own. */
  function RenderEach(ss: seq<Selector>): (r: seq<string>)
    ensures |r| == |ss|
    ensures forall i :: 0 <= i < |ss| ==> r[i] == RenderSelector(ss[i])
  {
    if ss == [] then [] else [RenderSelector(ss[0])] + RenderEach(ss[1..])
  }

  /** Python's `s.split(sep)`: the pieces between separators, always at least one. */
  function Split(s: string, sep: char): (r: seq<string>)
    ensures |r| >= 1
  {
    if s == [] then [""]
    else
      var rest := Split(s[1..], sep);
      if s[0] == sep then [""] + rest else [[s[0]] + rest[0]] + rest[1..]
  }

  /** The alternatives yt-dlp reads out of a format expression. */
  function Alternatives(format: string): seq<string> {
    Split(format, '/')
  }

  lemma {:induction false} SplitWithoutSeparator(a: string, sep: char)
    requires sep !in a
    ensures Split(a, sep) == [a]
  {
    if a != [] {
      assert sep !in a[1..];
      SplitWithoutSeparator(a[1..], sep);
      assert [a[0]] + a[1..] == a;
    }
  }

  lemma {:induction false} SplitAfterPiece(a: string, b: string, sep: char)
    requires sep !in a
    ensures Split(a + [sep] + b, sep) == [a] + Split(b, sep)
  {
    if a == [] {
      assert a + [sep] + b == [sep] + b;
      assert ([sep] + b)[1..] == b;
    } else {
      var s := a + [sep] + b;
      assert s[1..] == a[1..] + [sep] + b;
      assert sep !in a[1..];
      SplitAfterPiece(a[1..], b, sep);
      assert [a[0]] + a[1..] == a;
    }
  }

  /** Splitting a rendered expression gives back its alternatives when none of them contains '/'. */
  lemma {:induction false} SplitRender(ss: seq<Selector>)
    requires ss != []
    requires forall s :: s in ss ==> '/' !in RenderSelector(s)
    ensures Alternatives(Render(ss)) == RenderEach(ss)
  {
    if |ss| == 1 {
      SplitWithoutSeparator(RenderSelector(ss[0]), '/');
    } else {
      assert ss[0] in ss;
      assert forall s :: s in ss[1..] ==> s in ss;
      SplitRender(ss[1..]);
      assert RenderSelector(ss[0]) + "/" + Render(ss[1..]) == RenderSelector(ss[0]) + ['/'] + Render(ss[1..]);
      SplitAfterPiece(RenderSelector(ss[0]), Render(ss[1..]), '/');
    }
  }

  /** Does the alternative carry the filter (on either stream of a merge). */
  predicate HasFilter(s: Selector, f: Filter) {
    match s
    case Single(_, fs) => f in fs
    case Merged(v, a) => f in v || f in a
  }

  lemma ContainsInside(a: string, m: string, b: string, t: string)
    requires Contains(m, t)
    ensures Contains(a + m + b, t)
  {
    var i :| OccursAt(m, t, i);
    assert (a + m + b)[|a| + i..|a| + i + |t|] == m[i..i + |t|];
    assert OccursAt(a + m + b, t, |a| + i);
  }

  lemma {:induction false} FiltersContain(fs: seq<Filter>, f: Filter)
    requires f in fs
    ensures Contains(RenderFilters(fs), RenderFilter(f))
  {
    if fs[0] == f {
      assert RenderFilters(fs) == "" + RenderFilter(f) + RenderFilters(fs[1..]);
      ContainsMiddle("", RenderFilter(f), RenderFilters(fs[1..]));
    } else {
      FiltersContain(fs[1..], f);
      ContainsInside(RenderFilter(fs[0]), RenderFilters(fs[1..]), "", RenderFilter(f));
      assert RenderFilter(fs[0]) + RenderFilters(fs[1..]) + "" == RenderFilters(fs);
    }
  }

  /** An alternative that carries a filter has the filter's text in its rendering. */
  lemma SelectorContains(s: Selector, f: Filter)
    requires HasFilter(s, f)
    ensures Contains(RenderSelector(s), RenderFilter(f))
  {
    match s
    case Single(p, fs) =>
      FiltersContain(fs, f);
      ContainsInside(PickWord(p), RenderFilters(fs), "", RenderFilter(f));
      assert PickWord(p) + RenderFilters(fs) + "" == RenderSelector(s);
    case Merged(v, a) =>
      if f in v {
        FiltersContain(v, f);
        ContainsInside("bestvideo", RenderFilters(v), "+bestaudio" + RenderFilters(a), RenderFilter(f));
        assert "bestvideo" + RenderFilters(v) + ("+bestaudio" + RenderFilters(a)) == RenderSelector(s);
      } else {
        FiltersContain(a, f);
        ContainsInside("bestvideo" + RenderFilters(v) + "+bestaudio", RenderFilters(a), "", RenderFilter(f));
        assert "bestvideo" + RenderFilters(v) + "+bestaudio" + RenderFilters(a) + "" == RenderSelector(s);
      }
  }

  /** `c` is missing from every filter of `fs`, both from its fixed text and from its parameter. */
  predicate FiltersAvoid(fs: seq<Filter>, c: char) {
    c != ']' && forall f :: f in fs ==> c !in Opening(f) && c !in Param(f)
  }

  lemma {:induction false} RenderFiltersAvoid(fs: seq<Filter>, c: char)
    requires FiltersAvoid(fs, c)
    ensures c !in RenderFilters(fs)
  {
    if fs != [] {
      assert fs[0] in fs;
      assert FiltersAvoid(fs[1..], c) by {
        assert forall f :: f in fs[1..] ==> f in fs;
      }
      RenderFiltersAvoid(fs[1..], c);
    }
  }

  /** `c` is missing from the rendering of an alternative. */
  predicate SelectorAvoids(s: Selector, c: char) {
    match s
    case Single(p, fs) => c !in PickWord(p) && FiltersAvoid(fs, c)
    case Merged(v, a) => c !in "bestvideo+bestaudio" && FiltersAvoid(v, c) && FiltersAvoid(a, c)
  }

  lemma RenderSelectorAvoids(s: Selector, c: char)
    requires SelectorAvoids(s, c)
    ensures c !in RenderSelector(s)
  {
    match s
    case Single(p, fs) =>
      RenderFiltersAvoid(fs, c);
    case Merged(v, a) =>
      RenderFiltersAvoid(v, c);
      RenderFiltersAvoid(a, c);
      assert c !in "bestvideo" && c !in "+bestaudio" by {
        assert forall k :: 0 <= k < 9 ==> "bestvideo"[k] == "bestvideo+bestaudio"[k];
        assert forall k :: 0 <= k < 10 ==> "+bestaudio"[k] == "bestvideo+bestaudio"[k + 9];
      }
  }

  /** No filter text holds '/' or '+'. */
  lemma FilterPlain(f: Filter)
    ensures '/' !in Opening(f) && '+' !in Opening(f)
    ensures '/' !in Param(f) && '+' !in Param(f)
  {
    match f
    case HeightAtMost(h) => { assert Opening(f) == "[height<="; }
    case Ext(c) => { assert Opening(f) == "[ext="; }
    case NotM3u8 => { assert Opening(f) == "[protocol!=m3u8"; }
    case NotFormatId96 => { assert Opening(f) == "[format_id!="; }
    case HasVideo => { assert Opening(f) == "[vcodec!=none"; }
    case HasAudio => { assert Opening(f) == "[acodec!=none"; }
  }

  /** An alternative avoids '/', and a single-stream one avoids '+'. */
  lemma PlainSelector(s: Selector)
    ensures SelectorAvoids(s, '/')
    ensures s.Single? ==> SelectorAvoids(s, '+')
  {
    match s
    case Single(p, fs) =>
      forall f | f in fs ensures '/' !in Opening(f) && '/' !in Param(f) && '+' !in Opening(f) && '+' !in Param(f) {
        FilterPlain(f);
      }
    case Merged(v, a) =>
      forall f | f in v || f in a ensures '/' !in Opening(f) && '/' !in Param(f) {
        FilterPlain(f);
      }
  }

  /** No alternative contains '/', so no alternative is split apart. */
  lemma NoSeparatorInside(ss: seq<Selector>)
    ensures forall s :: s in ss ==> '/' !in RenderSelector(s)
  {
    forall s | s in ss ensures '/' !in RenderSelector(s) {
      PlainSelector(s);
      RenderSelectorAvoids(s, '/');
    }
  }

  /** Every alternative carries `f`. */
  predicate AllCarry(ss: seq<Selector>, f: Filter) {
    forall i :: 0 <= i < |ss| ==> HasFilter(ss[i], f)
  }

  /** Every alternative is a single stream. */
  predicate AllSingle(ss: seq<Selector>) {
    forall i :: 0 <= i < |ss| ==> ss[i].Single?
  }

  /** When every alternative carries `f`, every '/'-separated piece of the expression contains its text. */
  lemma EveryAlternativeContains(ss: seq<Selector>, f: Filter)
    requires ss != []
    requires AllCarry(ss, f)
    ensures forall alt :: alt in Alternatives(Render(ss)) ==> Contains(alt, RenderFilter(f))
  {
    NoSeparatorInside(ss);
    SplitRender(ss);
    forall alt | alt in Alternatives(Render(ss)) ensures Contains(alt, RenderFilter(f)) {
      var i :| 0 <= i < |ss| && alt == RenderEach(ss)[i];
      SelectorContains(ss[i], f);
    }
  }

  /** A merged alternative is written with '+'. */
  lemma MergedHasPlus(s: Selector)
    requires s.Merged?
    ensures '+' in RenderSelector(s)
  {
    assert RenderSelector(s)[9 + |RenderFilters(s.video)|] == '+';
  }

  /** The text of every filter. */
  lemma FilterTexts()
    ensures RenderFilter(HeightAtMost(H720)) == "[height<=720]" && RenderFilter(HeightAtMost(H1080)) == "[height<=1080]"
    ensures RenderFilter(Ext(Mp4)) == "[ext=mp4]" && RenderFilter(Ext(Webm)) == "[ext=webm]"
    ensures RenderFilter(Ext(M4a)) == "[ext=m4a]" && RenderFilter(NotM3u8) == "[protocol!=m3u8]"
    ensures RenderFilter(NotFormatId96) == "[format_id!=96]"
    ensures RenderFilter(HasVideo) == "[vcodec!=none]" && RenderFilter(HasAudio) == "[acodec!=none]"
  {
  }

  /** The '/'-separated pieces of the expression, when every alternative carries `f`, all contain the text of `f`. */
  lemma EveryAlternativeContainsText(ss: seq<Selector>, f: Filter, text: string)
    requires ss != [] && AllCarry(ss, f) && RenderFilter(f) == text
    ensures forall alt :: alt in Alternatives(Render(ss)) ==> Contains(alt, text)
  {
    EveryAlternativeContains(ss, f);
  }

  /** When every alternative is a single stream, no '/'-separated piece contains '+': nothing is merged. */
  lemma NoAlternativeMerges(ss: seq<Selector>)
    requires ss != []
    requires AllSingle(ss)
    ensures forall alt :: alt in Alternatives(Render(ss)) ==> '+' !in alt
  {
    NoSeparatorInside(ss);
    SplitRender(ss);
    forall alt | alt in Alternatives(Render(ss)) ensures '+' !in alt {
      var i :| 0 <= i < |ss| && alt == RenderEach(ss)[i];
      PlainSelector(ss[i]);
      RenderSelectorAvoids(ss[i], '+');
    }
  }

  /** Single-stream alternatives that all demand a video and an audio codec: no piece merges, each piece names both demands. */
  lemma SingleStreamAlternatives(ss: seq<Selector>)
    requires ss != [] && AllSingle(ss) && AllCarry(ss, HasVideo) && AllCarry(ss, HasAudio)
    ensures forall alt :: alt in Alternatives(Render(ss)) ==>
      '+' !in alt && Contains(alt, "[vcodec!=none]") && Contains(alt, "[acodec!=none]")
  {
    NoAlternativeMerges(ss);
    FilterTexts();
    EveryAlternativeContainsText(ss, HasVideo, "[vcodec!=none]");
    EveryAlternativeContainsText(ss, HasAudio, "[acodec!=none]");
  }

  /** The i-th '/'-separated piece of a rendered expression is the i-th alternative's rendering. */
  lemma AlternativeAt(ss: seq<Selector>, i: int)
    requires 0 <= i < |ss|
    ensures |Alternatives(Render(ss))| == |ss|
    ensures Alternatives(Render(ss))[i] == RenderSelector(ss[i])
  {
    NoSeparatorInside(ss);
    SplitRender(ss);
  }

  /** Only the video-codec filter puts the letter 'v' into a rendering. */
  lemma LetterV(f: Filter)
    requires f != HasVideo
    ensures 'v' !in Opening(f) && 'v' !in Param(f)
  {
    match f
    case HeightAtMost(h) => { assert Opening(f) == "[height<="; }
    case Ext(c) => { assert Opening(f) == "[ext="; }
    case NotM3u8 => { assert Opening(f) == "[protocol!=m3u8"; }
    case NotFormatId96 => { assert Opening(f) == "[format_id!="; }
    case HasAudio => { assert Opening(f) == "[acodec!=none"; }
  }

  /** Only the audio-codec, m4a and format-id filters put the letter 'a' into a rendering. */
  lemma LetterA(f: Filter)
    requires f != HasAudio && f != Ext(M4a) && f != NotFormatId96
    ensures 'a' !in Opening(f) && 'a' !in Param(f)
  {
    match f
    case HeightAtMost(h) => { assert Opening(f) == "[height<="; }
    case Ext(c) => { assert Opening(f) == "[ext="; }
    case NotM3u8 => { assert Opening(f) == "[protocol!=m3u8"; }
    case HasVideo => { assert Opening(f) == "[vcodec!=none"; }
  }

  /** Only container filters put the letter 'x' into a rendering. */
  lemma LetterX(f: Filter)
    requires !f.Ext?
    ensures 'x' !in Opening(f) && 'x' !in Param(f)
  {
    match f
    case HeightAtMost(h) => { assert Opening(f) == "[height<="; }
    case NotM3u8 => { assert Opening(f) == "[protocol!=m3u8"; }
    case NotFormatId96 => { assert Opening(f) == "[format_id!="; }
    case HasVideo => { assert Opening(f) == "[vcodec!=none"; }
    case HasAudio => { assert Opening(f) == "[acodec!=none"; }
  }

  /** Only the m3u8 and mp4 filters put the letter 'p' into a rendering. */
  lemma LetterP(f: Filter)
    requires f != NotM3u8 && f != Ext(Mp4)
    ensures 'p' !in Opening(f) && 'p' !in Param(f)
  {
    match f
    case HeightAtMost(h) => { assert Opening(f) == "[height<="; }
    case Ext(c) => { assert Opening(f) == "[ext="; }
    case NotFormatId96 => { assert Opening(f) == "[format_id!="; }
    case HasVideo => { assert Opening(f) == "[vcodec!=none"; }
    case HasAudio => { assert Opening(f) == "[acodec!=none"; }
  }

  /** Filters without the m3u8 exclusion (and without an mp4 filter) render without `[protocol!=m3u8]`. */
  lemma FiltersLackHlsExclusion(fs: seq<Filter>)
    requires NotM3u8 !in fs && Ext(Mp4) !in fs
    ensures !Contains(RenderFilters(fs), "[protocol!=m3u8]")
  {
    forall f | f in fs ensures 'p' !in Opening(f) && 'p' !in Param(f) {
      LetterP(f);
    }
    RenderFiltersAvoid(fs, 'p');
    assert "[protocol!=m3u8]"[1] == 'p';
    NotContainsWithout(RenderFilters(fs), "[protocol!=m3u8]", 'p');
  }

  /** A single-stream alternative without the video-codec filter does not demand a video codec. */
  lemma LacksVideoDemand(s: Selector)
    requires s.Single? && !HasFilter(s, HasVideo)
    ensures !Contains(RenderSelector(s), "[vcodec!=none]")
  {
    forall f | f in s.filters ensures 'v' !in Opening(f) && 'v' !in Param(f) {
      LetterV(f);
    }
    RenderSelectorAvoids(s, 'v');
    NotContainsWithout(RenderSelector(s), "[vcodec!=none]", 'v');
  }

  /** A single-stream alternative without an audio-codec, m4a or format-id filter does not demand an audio codec. */
  lemma LacksAudioDemand(s: Selector)
    requires s.Single? && !HasFilter(s, HasAudio) && !HasFilter(s, Ext(M4a)) && !HasFilter(s, NotFormatId96)
    ensures !Contains(RenderSelector(s), "[acodec!=none]")
  {
    forall f | f in s.filters ensures 'a' !in Opening(f) && 'a' !in Param(f) {
      LetterA(f);
    }
    RenderSelectorAvoids(s, 'a');
    NotContainsWithout(RenderSelector(s), "[acodec!=none]", 'a');
  }

  /** A single-stream alternative without a container filter accepts any container. */
  lemma LacksContainer(s: Selector)
    requires s.Single? && forall c :: !HasFilter(s, Ext(c))
    ensures !Contains(RenderSelector(s), "[ext=")
  {
    forall f | f in s.filters ensures 'x' !in Opening(f) && 'x' !in Param(f) {
      LetterX(f);
    }
    RenderSelectorAvoids(s, 'x');
    NotContainsWithout(RenderSelector(s), "[ext=", 'x');
  }
}
