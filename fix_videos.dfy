/**
 * The repair script (fix_videos.py): re-encode one video with ffmpeg into `<stem>_fixed.mp4` next
 * to it, optionally deleting the original, and do that for every video file of a directory except
 * the outputs of earlier repairs.
 *
 * The file system is the set of paths that exist. ffmpeg is a parameter `run` that maps the argument
 * list to what the process did, and `locked` holds the paths that `os.remove` fails on.
 */
module FixVideos {
  import opened Wrappers
  import opened Paths

  /** What one ffmpeg run did. */
  datatype FfmpegRun =
    | Encoded(wroteOutput: bool)   // exit status 0; whether the output file now exists
    | Failed(stderr: string)       // CalledProcessError: a non-zero exit status
    | NotInstalled                 // FileNotFoundError: no ffmpeg executable

  /** The value `fix_video` returns, the argument list it ran (if any) and the files that exist afterwards. */
  datatype Fix = Fix(ok: bool, command: Option<seq<string>>, disk: set<string>)

  const FixedSuffix: string := "_fixed.mp4"

  /** The default output: `<stem>_fixed.mp4` in the input's parent directory. */
  function DefaultOutput(input: string): string {
    DirPrefix(input) + Stem(Name(input)) + FixedSuffix
  }

  /** The ffmpeg argument list: H.264 video, AAC audio, the index at the front, overwriting the output. */
  function FixCommand(input: string, output: string): (cmd: seq<string>) {
    ["ffmpeg", "-i", input, "-c:v", "libx264", "-c:a", "aac", "-movflags", "+faststart",
     "-preset", "medium", "-crf", "23", "-y", output]
  }

  /** The output a call writes to: the one given, or the default one. */
  function OutputOf(input: string, output: Option<string>): string {
    if output.Some? then output.value else DefaultOutput(input)
  }

  /** `fix_video(input, output, keep_original)`. */
  function FixVideo(disk: set<string>, input: string, output: Option<string>, keepOriginal: bool,
                    run: seq<string> -> FfmpegRun, locked: set<string>): Fix
  {
    if input !in disk then Fix(false, None, disk)
    else Reencode(disk, input, OutputOf(input, output), keepOriginal, run, locked)
  }

  /** The part of `fix_video` after the output path `out` is chosen: the ffmpeg run and the removal of the input. */
  function Reencode(disk: set<string>, input: string, out: string, keepOriginal: bool,
                    run: seq<string> -> FfmpegRun, locked: set<string>): Fix
  {
    var cmd := FixCommand(input, out);
    match run(cmd)
    case Encoded(wrote) =>
      var written := if wrote then disk + {out} else disk;
      var removed := !keepOriginal && out in written && input !in locked;
      Fix(true, Some(cmd), if removed then written - {input} else written)
    case Failed(_) => Fix(false, Some(cmd), disk)
    case NotInstalled => Fix(false, Some(cmd), disk)
  }

  /** The output name keeps the parent directory and is the stem followed by `_fixed.mp4`. */
  lemma DefaultOutputShape(input: string)
    ensures Name(DefaultOutput(input)) == Stem(Name(input)) + FixedSuffix
    ensures DirPrefix(DefaultOutput(input)) == DirPrefix(input)
    ensures EndsWith(Name(DefaultOutput(input)), FixedSuffix)
  {
    AfterStem(input, FixedSuffix);
    var s := Stem(Name(input)) + FixedSuffix;
    assert s[|s| - 10..] == FixedSuffix;
  }

  /** The default output is never the input itself: a suffix starts with a dot, `_fixed.mp4` does not. */
  lemma DefaultOutputDiffers(input: string)
    ensures DefaultOutput(input) != input
  {
    DefaultOutputShape(input);
  }

  /** The command line is the fixed template with the input after `-i` and the output last. */
  lemma CommandShape(input: string, output: string)
    ensures |FixCommand(input, output)| == 15
    ensures FixCommand(input, output)[1] == "-i" && FixCommand(input, output)[2] == input
    ensures FixCommand(input, output)[14] == output
    ensures FixCommand(input, output)[13] == "-y"
  {
  }

  /** Distinct calls run distinct commands: the command determines the input and the output. */
  lemma CommandInjective(input: string, output: string, input': string, output': string)
    requires FixCommand(input, output) == FixCommand(input', output')
    ensures input == input' && output == output'
  {
    assert FixCommand(input, output)[2] == FixCommand(input', output')[2];
    assert FixCommand(input, output)[14] == FixCommand(input', output')[14];
  }

  /** A missing input fails at once: no command, no change. */
  lemma MissingInput(disk: set<string>, input: string, output: Option<string>, keepOriginal: bool,
                     run: seq<string> -> FfmpegRun, locked: set<string>)
    requires input !in disk
    ensures FixVideo(disk, input, output, keepOriginal, run, locked) == Fix(false, None, disk)
  {
  }

  /** For an existing input the call runs the template and returns True exactly when ffmpeg exits with status 0. */
  lemma FixRuns(disk: set<string>, input: string, output: Option<string>, keepOriginal: bool,
                run: seq<string> -> FfmpegRun, locked: set<string>)
    requires input in disk
    ensures FixVideo(disk, input, output, keepOriginal, run, locked).command ==
      Some(FixCommand(input, OutputOf(input, output)))
    ensures FixVideo(disk, input, output, keepOriginal, run, locked).ok <==>
      run(FixCommand(input, OutputOf(input, output))).Encoded?
  {
  }

  /**
   * The input disappears only when the original is not kept, ffmpeg succeeded, the output exists and
   * the removal works; a failed run changes nothing.
   */
  lemma RemovalRule(disk: set<string>, input: string, out: string, keepOriginal: bool,
                    run: seq<string> -> FfmpegRun, locked: set<string>)
    requires input in disk
    ensures var r := Reencode(disk, input, out, keepOriginal, run, locked);
      input !in r.disk ==>
        !keepOriginal && r.ok && input !in locked && (out in disk || run(FixCommand(input, out)) == Encoded(true))
    ensures var r := Reencode(disk, input, out, keepOriginal, run, locked);
      (!keepOriginal && r.ok && input !in locked && (out in disk || run(FixCommand(input, out)) == Encoded(true))) ==>
        input !in r.disk
    ensures !Reencode(disk, input, out, keepOriginal, run, locked).ok ==>
      Reencode(disk, input, out, keepOriginal, run, locked).disk == disk
  {
  }

  /** Only the input and the output can change, and a written output survives when it is not the input. */
  lemma ReencodeFrame(disk: set<string>, input: string, out: string, keepOriginal: bool,
                      run: seq<string> -> FfmpegRun, locked: set<string>, q: string)
    requires q != input && q != out
    ensures q in Reencode(disk, input, out, keepOriginal, run, locked).disk <==> q in disk
    ensures (out != input && run(FixCommand(input, out)) == Encoded(true)) ==>
      out in Reencode(disk, input, out, keepOriginal, run, locked).disk
  {
  }

  // ---------------------------------------------------------------------------------------------
  // The directory batch (fix_videos.py:105-136)

  const VideoExtensions: seq<string> := [".mp4", ".webm", ".mkv", ".flv", ".avi"]

  /** `str.upper` on ASCII text. */
  function Upper(s: string): (r: string)
    ensures |r| == |s|
  {
    seq(|s|, k requires 0 <= k < |s| => if 'a' <= s[k] <= 'z' then (s[k] as int - 32) as char else s[k])
  }

  /** The names `glob('*' + ext)` yields, in directory order; matching is case-sensitive. */
  function Glob(names: seq<string>, ext: string): seq<string> {
    if names == [] then []
    else
      var last := names[|names| - 1];
      Glob(names[..|names| - 1], ext) + (if EndsWith(last, ext) then [last] else [])
  }

  /** The names gathered for the extensions `exts`: each extension's lower-case glob, then its upper-case glob. */
  function Gathered(names: seq<string>, exts: seq<string>): seq<string> {
    if exts == [] then []
    else
      var ext := exts[|exts| - 1];
      Gathered(names, exts[..|exts| - 1]) + Glob(names, ext) + Glob(names, Upper(ext))
  }

  /** The names that survive the exclusion of earlier outputs. */
  function Unfixed(names: seq<string>): (r: seq<string>)
    ensures forall n :: n in r <==> n in names && !EndsWith(n, FixedSuffix)
  {
    if names == [] then []
    else (if EndsWith(names[0], FixedSuffix) then [] else [names[0]]) + Unfixed(names[1..])
  }

  /** The file names of a directory listing that the batch repairs. */
  function Candidates(names: seq<string>): seq<string> {
    Unfixed(Gathered(names, VideoExtensions))
  }

  /** The upper-case forms the batch also globs for. */
  lemma UpperExtensions()
    ensures Upper(".mp4") == ".MP4" && Upper(".webm") == ".WEBM" && Upper(".mkv") == ".MKV"
    ensures Upper(".flv") == ".FLV" && Upper(".avi") == ".AVI"
  {
  }

  lemma {:induction false} GlobIn(names: seq<string>, ext: string, n: string)
    ensures n in Glob(names, ext) <==> n in names && EndsWith(n, ext)
  {
    if names != [] {
      var init := names[..|names| - 1];
      GlobIn(init, ext, n);
      assert names == init + [names[|names| - 1]];
    }
  }

  /** Does `n` end with one of `exts`, in lower or in upper case. */
  predicate MatchesAny(n: string, exts: seq<string>) {
    exts != [] &&
      (MatchesAny(n, exts[..|exts| - 1]) || EndsWith(n, exts[|exts| - 1]) || EndsWith(n, Upper(exts[|exts| - 1])))
  }

  lemma {:induction false} GatheredIn(names: seq<string>, exts: seq<string>, n: string)
    ensures n in Gathered(names, exts) <==> n in names && MatchesAny(n, exts)
  {
    if exts != [] {
      var ext := exts[|exts| - 1];
      GatheredIn(names, exts[..|exts| - 1], n);
      GlobIn(names, ext, n);
      GlobIn(names, Upper(ext), n);
    }
  }

  /** Matching one of the extensions, in lower or in upper case, is matching one of them at some position. */
  lemma {:induction false} MatchesAnyAt(n: string, exts: seq<string>)
    ensures MatchesAny(n, exts) ==>
      exists k :: 0 <= k < |exts| && (EndsWith(n, exts[k]) || EndsWith(n, Upper(exts[k])))
    ensures (exists k :: 0 <= k < |exts| && (EndsWith(n, exts[k]) || EndsWith(n, Upper(exts[k])))) ==>
      MatchesAny(n, exts)
  {
    if exts != [] {
      var init := exts[..|exts| - 1];
      MatchesAnyAt(n, init);
      if MatchesAny(n, init) {
        var k :| 0 <= k < |init| && (EndsWith(n, init[k]) || EndsWith(n, Upper(init[k])));
        assert exts[k] == init[k];
      }
      if k :| 0 <= k < |exts| && (EndsWith(n, exts[k]) || EndsWith(n, Upper(exts[k]))) {
        if k < |init| {
          assert init[k] == exts[k];
        }
      }
    }
  }

  /**
   * A name is a candidate exactly when the directory lists it, it ends with one of the five extensions
   * in lower or in upper case, and it does not end with `_fixed.mp4`.
   */
  lemma CandidateRule(names: seq<string>, n: string)
    ensures n in Candidates(names) ==>
      n in names && !EndsWith(n, FixedSuffix) &&
      exists k :: 0 <= k < |VideoExtensions| && (EndsWith(n, VideoExtensions[k]) || EndsWith(n, Upper(VideoExtensions[k])))
    ensures (n in names && !EndsWith(n, FixedSuffix) &&
      exists k :: 0 <= k < |VideoExtensions| &&
        (EndsWith(n, VideoExtensions[k]) || EndsWith(n, Upper(VideoExtensions[k])))) ==> n in Candidates(names)
  {
    GatheredIn(names, VideoExtensions, n);
    MatchesAnyAt(n, VideoExtensions);
  }

  /** The default output of a repair is never picked up by a later batch. */
  lemma OutputNeverCandidate(names: seq<string>, input: string)
    ensures Name(DefaultOutput(input)) !in Candidates(names)
  {
    DefaultOutputShape(input);
  }

  /** How a batch ended. */
  datatype BatchReport =
    | MissingDirectory
    | NoVideos
    | Repaired(total: nat, succeeded: nat)

  /** One call `fix_video(str(path), keep_original=keep_original)` of the batch, on the files that exist. */
  function FixStep(keepOriginal: bool, run: seq<string> -> FfmpegRun, locked: set<string>): (set<string>, string) -> Fix {
    (files: set<string>, path: string) => FixVideo(files, path, None, keepOriginal, run, locked)
  }

  /** The results of `step` on `paths` in order, each run on the files the previous one left. */
  function Steps(disk: set<string>, paths: seq<string>, step: (set<string>, string) -> Fix): (steps: seq<Fix>)
    ensures |steps| == |paths|
  {
    if paths == [] then []
    else
      var before := Steps(disk, paths[..|paths| - 1], step);
      var current := if before == [] then disk else before[|before| - 1].disk;
      before + [step(current, paths[|paths| - 1])]
  }

  /** The files that exist after the repairs. */
  function After(disk: set<string>, steps: seq<Fix>): set<string> {
    if steps == [] then disk else steps[|steps| - 1].disk
  }

  /** The number of repairs that returned True. */
  function Successes(steps: seq<Fix>): (n: nat)
    ensures n <= |steps|
  {
    if steps == [] then 0
    else Successes(steps[..|steps| - 1]) + (if steps[|steps| - 1].ok then 1 else 0)
  }

  /** All repairs succeed exactly when the count reaches the number of files. */
  lemma {:induction false} AllSucceeded(steps: seq<Fix>)
    ensures Successes(steps) == |steps| <==> forall k :: 0 <= k < |steps| ==> steps[k].ok
  {
    if steps != [] {
      var init := steps[..|steps| - 1];
      AllSucceeded(init);
      assert forall k :: 0 <= k < |init| ==> init[k] == steps[k];
    }
  }

  /** Steps that never succeed and never change the files leave the count at zero and the files as they were. */
  lemma {:induction false} IdleSteps(disk: set<string>, paths: seq<string>, step: (set<string>, string) -> Fix)
    requires forall files, path :: !step(files, path).ok && step(files, path).disk == files
    ensures Successes(Steps(disk, paths, step)) == 0
    ensures After(disk, Steps(disk, paths, step)) == disk
  {
    if paths != [] {
      IdleSteps(disk, paths[..|paths| - 1], step);
    }
  }

  /** No repair succeeds, and no file changes, when ffmpeg is not installed. */
  lemma NoFfmpegNoSuccess(disk: set<string>, paths: seq<string>, keepOriginal: bool,
                          run: seq<string> -> FfmpegRun, locked: set<string>)
    requires forall cmd :: run(cmd) == NotInstalled
    ensures Successes(Steps(disk, paths, FixStep(keepOriginal, run, locked))) == 0
    ensures After(disk, Steps(disk, paths, FixStep(keepOriginal, run, locked))) == disk
  {
    var step := FixStep(keepOriginal, run, locked);
    forall files, path ensures !step(files, path).ok && step(files, path).disk == files {
      assert step(files, path) == FixVideo(files, path, None, keepOriginal, run, locked);
    }
    IdleSteps(disk, paths, step);
  }

  /** One more step appends its result, computed on the files the earlier steps left. */
  lemma StepsExtend(disk: set<string>, paths: seq<string>, i: nat, step: (set<string>, string) -> Fix)
    requires i < |paths|
    ensures Steps(disk, paths[..i + 1], step) ==
      Steps(disk, paths[..i], step) + [step(After(disk, Steps(disk, paths[..i], step)), paths[i])]
  {
    assert paths[..i + 1][..i] == paths[..i];
  }

  /** An appended result is counted and leaves the files for the next step. */
  lemma AppendResult(disk: set<string>, steps: seq<Fix>, r: Fix)
    ensures Successes(steps + [r]) == Successes(steps) + (if r.ok then 1 else 0)
    ensures After(disk, steps + [r]) == r.disk
  {
    assert (steps + [r])[..|steps|] == steps;
  }

  /** `glob` into a growing list: `files.extend(dir.glob('*' + ext))`. */
  method ExtendGlob(files: seq<string>, names: seq<string>, ext: string) returns (r: seq<string>)
    ensures r == files + Glob(names, ext)
  {
    r := files;
    var i := 0;
    while i < |names|
      invariant 0 <= i <= |names|
      invariant r == files + Glob(names[..i], ext)
    {
      assert names[..i + 1][..i] == names[..i];
      if EndsWith(names[i], ext) {
        r := r + [names[i]];
      }
      i := i + 1;
    }
    assert names[..i] == names;
  }

  /** The gathering loop: for each extension, the lower-case glob and then the upper-case glob. */
  method GatherVideos(names: seq<string>) returns (files: seq<string>)
    ensures files == Gathered(names, VideoExtensions)
  {
    files := [];
    var e := 0;
    while e < |VideoExtensions|
      invariant 0 <= e <= |VideoExtensions|
      invariant files == Gathered(names, VideoExtensions[..e])
    {
      assert VideoExtensions[..e + 1][..e] == VideoExtensions[..e];
      files := ExtendGlob(files, names, VideoExtensions[e]);
      files := ExtendGlob(files, names, Upper(VideoExtensions[e]));
      e := e + 1;
    }
    assert VideoExtensions[..e] == VideoExtensions;
  }

  /** The repair loop: every path in turn, counting the calls that return True. */
  method RepairEach(disk: set<string>, paths: seq<string>, step: (set<string>, string) -> Fix)
    returns (successCount: nat, disk': set<string>)
    ensures successCount == Successes(Steps(disk, paths, step))
    ensures disk' == After(disk, Steps(disk, paths, step))
  {
    successCount := 0;
    disk' := disk;
    var i := 0;
    ghost var steps: seq<Fix> := [];
    while i < |paths|
      invariant 0 <= i <= |paths|
      invariant steps == Steps(disk, paths[..i], step)
      invariant successCount == Successes(steps)
      invariant disk' == After(disk, steps)
    {
      var r := step(disk', paths[i]);
      StepsExtend(disk, paths, i, step);
      AppendResult(disk, steps, r);
      if r.ok {
        successCount := successCount + 1;
      }
      disk' := r.disk;
      steps := steps + [r];
      i := i + 1;
    }
    assert paths[..i] == paths;
  }

  /** The paths `dir / name` of the names, in order. */
  function JoinAll(directory: string, names: seq<string>): (r: seq<string>)
    ensures |r| == |names|
    ensures forall k :: 0 <= k < |names| ==> r[k] == Join(directory, names[k])
  {
    if names == [] then [] else [Join(directory, names[0])] + JoinAll(directory, names[1..])
  }

  /**
   * `fix_all_videos_in_directory(directory, keep_original)`; `names` is the directory's listing and
   * `directory` is in normal form.
   */
  method FixAllVideos(disk: set<string>, directory: string, names: seq<string>, keepOriginal: bool,
                      run: seq<string> -> FfmpegRun, locked: set<string>)
    returns (report: BatchReport, disk': set<string>)
    ensures directory !in disk ==> report == MissingDirectory && disk' == disk
    ensures directory in disk && Candidates(names) == [] ==> report == NoVideos && disk' == disk
    ensures directory in disk && Candidates(names) != [] ==>
      report == Repaired(|Candidates(names)|,
        Successes(Steps(disk, JoinAll(directory, Candidates(names)), FixStep(keepOriginal, run, locked))))
    ensures report.Repaired? ==> report.succeeded <= report.total
    ensures directory in disk && Candidates(names) != [] ==>
      disk' == After(disk, Steps(disk, JoinAll(directory, Candidates(names)), FixStep(keepOriginal, run, locked)))
  {
    if directory !in disk {
      return MissingDirectory, disk;
    }
    var files := GatherVideos(names);
    var candidates := Unfixed(files);
    if candidates == [] {
      return NoVideos, disk;
    }
    var successCount;
    successCount, disk' := RepairEach(disk, JoinAll(directory, candidates), FixStep(keepOriginal, run, locked));
    report := Repaired(|candidates|, successCount);
  }
}
