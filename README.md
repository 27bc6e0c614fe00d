# yt_downloader core, modelled in Dafny

This project models the logic of a small YouTube downloader. The downloader has two parts.

The web application (`app.py`):
- keeps a process-wide dictionary of download tasks;
- creates a pending task for each accepted request;
- runs a background job that marks the task downloading, applies yt-dlp's progress events to it and finally records either the downloaded file or the error;
- answers status queries;
- lists the videos in its download directory, newest first.

The command-line scripts:
- `download_youtube.py` and `redownload_fixed.py` build yt-dlp option dictionaries, with format-selection expressions that keep away from HLS (m3u8) streams;
- `fix_videos.py` re-encodes videos with ffmpeg into `<stem>_fixed.mp4`, one file or a whole directory, and counts the successes.

yt-dlp, ffmpeg, the file system and the clock are all outside the model. Each becomes a parameter:
- the progress events and the outcome of the download;
- a function from the ffmpeg argument list to what the process did;
- the set of paths that exist;
- the directory's entries.

Files:
- `wrappers.dfy`: `Option`.
- `paths.dfy`: the `pathlib` operations the code uses on paths in normal form, namely `name`, `stem`, `suffix`, `parent`, `/` and `with_suffix`.
- `formats.dfy`: format expressions as structured alternatives, their rendering to the exact text yt-dlp receives, and the lemmas that carry facts about filters over to the '/'-separated text.
- `app_options.dfy`, `download_youtube.dfy`, `redownload_fixed.dfy`: the three option dictionaries and their format tables.
- `task_store.dfy`: the task records, the progress hook, the completion probe, the background job, and the class `DownloadTasks` that holds `download_tasks`.
- `listing.dfy`: `list_downloads`.
- `fix_videos.py` is modelled in `fix_videos.dfy`: `fix_video` and `fix_all_videos_in_directory`.

Where the code and the written design of the system differ, the model follows the code:
- The status becomes `downloading` as soon as the job starts (app.py:102), not on the first progress event. A task therefore always passes through `downloading` before `error`.
- Progress is never clamped and is not monotonic. A download that passes its estimated total gets a progress above 100, and a later event can lower it.
- A job completes even when neither the predicted file nor any probed candidate exists. The record then names the predicted path.

## Model

| member | source | states |
|---|---|---|
| Paths.LastIndexOf | app.py:223 | the position of the last occurrence of a character, -1 when there is none; no later position holds it |
| Paths.Name | app.py:121 | the final component of a path holds no separator and ends the path |
| Paths.DirPrefix | fix_videos.py:53 | the parent part of a path is empty or ends with a separator, and is non-empty for a path with a separator |
| Paths.Suffix | app.py:223 | a suffix is empty or starts with a dot, has at least two characters, is shorter than the name and ends it |
| Paths.SuffixExact | app.py:223 | a non-empty suffix holds no dot after its first character; the suffix is empty exactly when the name is empty, ends with a dot, or has no dot after its first character, and then the stem is the whole name |
| Paths.Stem | fix_videos.py:53 | stem and suffix together are the name; the stem is empty only for an empty name |
| Paths.WithSuffix | app.py:114 | `with_suffix` fails exactly when the path has an empty name |
| Paths.Join | app.py:73 | the joined path ends with the joined name |
| Paths.JoinParent | app.py:73 | joining a plain name onto a directory gives a path whose parent part is the directory followed by one separator (none is added when the directory already ends with one) |
| Paths.NameOfJoin | app.py:73 | joining a plain name onto a directory gives a path whose final component is that name |
| Paths.NameAfterPrefix | fix_videos.py:53 | a separator-free name written after a parent prefix is the final component, and the prefix is its parent |
| Paths.WithSuffixShape | app.py:114 | the replacement path keeps the parent and is named stem followed by the new extension |
| Paths.AfterStem | fix_videos.py:53 | text that replaces a suffix stays in the final component, and the parent is kept |
| Formats.TierOf | app.py:83-99 | exactly "best", "720p", "1080p" and "worst" name a tier; any other quality names none |
| Formats.Render | app.py:84 | the format expression: the rendered alternatives joined by '/'; SplitRender and AlternativeAt recover them |
| Formats.SplitRender | app.py:84 | splitting a rendered expression at '/' gives back exactly the rendered alternatives |
| Formats.EveryAlternativeContains | app.py:84-99 | a filter that every alternative carries occurs in every '/'-separated piece of the text |
| Formats.NoAlternativeMerges | app.py:92-99 | when every alternative is a single stream, no piece of the text contains '+' |
| Formats.SingleStreamAlternatives | app.py:92-99 | single streams that demand video and audio give pieces free of '+' and containing both codec filters |
| Formats.AlternativeAt | download_youtube.py:71 | the i-th piece of the text is the i-th alternative rendered |
| Formats.FilterTexts | app.py:84-99 | the filters render as `[height<=720]`, `[ext=mp4]`, `[protocol!=m3u8]`, `[vcodec!=none]` and so on |
| Formats.LacksVideoDemand | download_youtube.py:71 | a single stream without the video filter renders without `[vcodec!=none]` |
| Formats.LacksAudioDemand | download_youtube.py:71 | a single stream with none of the audio, `[ext=m4a]` and `[format_id!=96]` filters renders without `[acodec!=none]` (the only filters whose text holds the letter 'a') |
| Formats.LacksContainer | redownload_fixed.py:48 | a single stream without a container filter renders without `[ext=` |
| AppOptions.MergingTable | app.py:83-90 | the web application's alternatives with ffmpeg, tier by tier; TableShape, MergedAudioAdmitsHls and WithFfmpegPrefersMerge state their properties |
| AppOptions.SingleTable | app.py:91-99 | the web application's alternatives without ffmpeg, all single streams; TableShape and WithoutFfmpegSingleStreams state their properties |
| AppOptions.Options | app.py:64-99 | the job's options: template `downloads/%(title)s.%(ext)s`, no playlists, the progress hook, merge format mp4 exactly when ffmpeg is present, and a format exactly for the four tiers |
| AppOptions.TableShape | app.py:81-99 | every table is non-empty and excludes m3u8 in every alternative; capped tiers cap every alternative; without ffmpeg every alternative is a single stream demanding video and audio |
| AppOptions.AlternativesAvoidHls | app.py:81-99 | for every tier and ffmpeg setting, every '/'-separated alternative contains `[protocol!=m3u8]` |
| AppOptions.WithoutFfmpegSingleStreams | app.py:91-99 | without ffmpeg no alternative contains '+' and every alternative contains `[vcodec!=none]` and `[acodec!=none]` |
| AppOptions.HeightTiersCapped | app.py:85-97 | 720p and 1080p put `[height<=720]` or `[height<=1080]` in every alternative |
| AppOptions.WithFfmpegPrefersMerge | app.py:83-88 | with ffmpeg the best, 720p and 1080p tiers first try a merged video+audio alternative |
| AppOptions.MergedAudioAdmitsHls | app.py:84-88 | in every merged alternative the video half excludes m3u8 and the audio half does not; the best, 720p and 1080p tiers open with two merges |
| AppOptions.MergedAudioTextAdmitsHls | app.py:84-88 | in the text of a merged alternative the video half contains `[protocol!=m3u8]` and the audio half does not |
| DownloadYoutube.MergingTable | download_youtube.py:57-65 | the script's alternatives with ffmpeg; TableShape and MergedHalvesAvoidHls state their properties |
| DownloadYoutube.SingleTable | download_youtube.py:66-77 | the script's alternatives without ffmpeg; TableShape, WithoutFfmpegNoMerge and WithoutFfmpegOnlyLastDemandsCodecs state their properties |
| DownloadYoutube.Options | download_youtube.py:43-77 | the script's options: template `<dir>/%(title)s.%(ext)s`, no playlists, warnings on, the shared format sort, merge format mp4 exactly with ffmpeg, a format exactly for the four tiers |
| DownloadYoutube.TableShape | download_youtube.py:54-77 | every table is non-empty and excludes m3u8 in every alternative; capped tiers cap every alternative |
| DownloadYoutube.AlternativesAvoidHls | download_youtube.py:57-77 | every alternative contains `[protocol!=m3u8]`, for every tier and ffmpeg setting |
| DownloadYoutube.HeightTiersCapped | download_youtube.py:60-75 | 720p and 1080p cap the height in every alternative |
| DownloadYoutube.MergedHalvesAvoidHls | download_youtube.py:59-63 | unlike the web application, both halves of every merged alternative exclude m3u8; the best, 720p and 1080p tiers open with two merges |
| DownloadYoutube.MergedHalvesTextAvoidHls | download_youtube.py:59-63 | in the text of a merged alternative both halves contain `[protocol!=m3u8]` |
| DownloadYoutube.WithoutFfmpegNoMerge | download_youtube.py:66-77 | without ffmpeg no alternative contains '+' |
| DownloadYoutube.WithoutFfmpegOnlyLastDemandsCodecs | download_youtube.py:69-77 | without ffmpeg there are three alternatives and only the last demands `[vcodec!=none]` and `[acodec!=none]` |
| RedownloadFixed.Table | redownload_fixed.py:46-54 | the strict alternatives per tier; TableShape and EveryAlternativeStrict state their properties |
| RedownloadFixed.Options | redownload_fixed.py:36-54 | template `<dir>/%(title)s_fixed.%(ext)s`, no playlists, no merge format ever, a format exactly for the four tiers |
| RedownloadFixed.TableShape | redownload_fixed.py:46-54 | three single streams per tier, each with the m3u8, format 96, video and audio filters |
| RedownloadFixed.EveryAlternativeStrict | redownload_fixed.py:46-54 | every alternative contains `[protocol!=m3u8]`, `[format_id!=96]`, `[vcodec!=none]` and `[acodec!=none]` and no '+' |
| RedownloadFixed.HeightTiersCapped | redownload_fixed.py:49-52 | 720p and 1080p cap the height in every alternative |
| RedownloadFixed.BestTierContainerOrder | redownload_fixed.py:48 | the best tier tries an mp4 stream, then a webm stream, then a stream with no container filter |
| TaskStore.NewTask | app.py:175-184 | the pending record with progress 0 and no file, error, speed or eta; StartDownload stores it |
| TaskStore.ChosenTotal | app.py:133 | the total is `total_bytes` when truthy, else the estimate, else 0 |
| TaskStore.Percent | app.py:136 | the hook's percentage; PercentBracket bounds it |
| TaskStore.PercentBracket | app.py:136 | the percentage is 100·downloaded/total truncated toward zero; it lies in 0..100 while within the total and is at least 100 beyond it |
| TaskStore.ProgressEffect | app.py:132-139 | the hook updates exactly for a downloading event with a positive total and a non-null count (progress, speed and eta); the TypeErrors of a null total or a null count; nothing otherwise |
| TaskStore.Deliver | app.py:129-139 | the hook applied to the events in order up to the first that raises; DeliverTouches and DeliverRaises state what it changes and when it stops |
| TaskStore.DeliverTouches | app.py:129-139 | delivering events changes only progress, speed and eta; without updates nothing changes; when no call raises, the last update sets the progress |
| TaskStore.DeliverRaises | app.py:129-139 | delivery stops with an error exactly when some event's hook raises, and reports the first such error |
| TaskStore.Replaced | app.py:113-114 | one `with_suffix` candidate per extension, in order |
| TaskStore.FirstExistingFacts | app.py:113-117 | the result is the first existing candidate; it is the fallback exactly when no candidate exists |
| TaskStore.Probe | app.py:110-117 | the file the job reports, or None when `with_suffix` raises; ProbeFacts and ProbeExtension characterise it |
| TaskStore.ProbeFacts | app.py:110-117 | an existing prediction is kept; the probe raises exactly for a missing prediction with an empty name; another file is reported only as the first existing candidate; it falls back to the prediction exactly when no candidate exists |
| TaskStore.ProbeExtension | app.py:110-117 | the loop with its early exit computes the probe |
| TaskStore.SettleRecord | app.py:107-126 | the record after the download from the hook's error, yt-dlp's outcome and the probe |
| TaskStore.JobRecord | app.py:101-126 | the record a whole job leaves; JobSettles, JobOutcome and JobKeepsValid state its properties |
| TaskStore.JobSettles | app.py:101-126 | a job on a fresh record ends completed or error, in a consistent record, with id, url and quality kept |
| TaskStore.JobOutcome | app.py:101-126 | completed exactly when no hook call raised, yt-dlp returned and the probe found a name, and then progress 100, the probed path and no error; otherwise error and no file: the error of the first event whose hook call raises, else yt-dlp's message, else the ValueError of `with_suffix` on the nameless prediction |
| TaskStore.JobKeepsValid | app.py:101-126 | running a job on a pending record keeps every record consistent under its own id, with history pending, downloading, settled |
| TaskStore.DownloadTasks.constructor | app.py:34 | the store starts empty and valid |
| TaskStore.DownloadTasks.StartDownload | app.py:161-194 | an empty or missing URL is refused with its message and changes nothing; otherwise a pending record is stored under the id, replacing any record with that id |
| TaskStore.DownloadTasks.Begin | app.py:102-103 | the record becomes downloading with progress 0; the history gains `downloading` |
| TaskStore.DownloadTasks.OnProgress | app.py:129-139 | an unknown id changes nothing; a known one gets the hook's update, or the hook's TypeError is returned |
| TaskStore.DownloadTasks.Complete | app.py:119-122 | the record becomes completed with progress 100, the file's name and its path |
| TaskStore.DownloadTasks.Fail | app.py:124-126 | the record becomes error with the message |
| TaskStore.DownloadTasks.DeliverEvents | app.py:129-139 | the hook is applied to each event in order, stopping at the first one that raises, and the record and the raised message are those of event delivery |
| TaskStore.DownloadTasks.Settle | app.py:107-126 | the record after the download is the settled record; the history gains its status |
| TaskStore.DownloadTasks.RunJob | app.py:62-126 | the options are the application's options; only this task's record changes, to the job's record, with history downloading then the settled status |
| TaskStore.DownloadTasks.Submit | app.py:161-194 | a refused request changes nothing; an accepted one leaves the job's record on a new task, a history pending, downloading, settled, and a valid store |
| TaskStore.DownloadTasks.GetStatus | app.py:197-215 | unknown id: the "任务不存在" error exactly; known id: the record's view with 0 for missing progress, speed and eta |
| TaskStore.View | app.py:203-215 | the status response for a record; SettledView and GetStatus state what it shows |
| TaskStore.SettledView | app.py:203-215 | a completed record shows progress 100, a file name and no error; a failed one an error and no file; a pending one zeros |
| Listing.Videos | app.py:221-230 | the files the loop collects, in directory order; ListedFiles characterises them |
| Listing.NewestFirst | app.py:233 | the stable newest-first sort; NewestFirstPermutation, NewestFirstSorted and NewestFirstStable state its properties |
| Listing.ListDownloads | app.py:218-238 | the listing is the collected videos sorted newest first |
| Listing.ListedFiles | app.py:222-230 | a file is listed exactly when it comes from a regular file with suffix .mp4, .webm or .mkv |
| Listing.NewestFirstPermutation | app.py:233 | the sort returns the same files |
| Listing.NewestFirstSorted | app.py:233 | the sort puts newer files first |
| Listing.NewestFirstStable | app.py:233 | files with the same modification time keep their directory order |
| FixVideos.DefaultOutput | fix_videos.py:50-53 | the default output path; DefaultOutputShape and DefaultOutputDiffers state its properties |
| FixVideos.FixCommand | fix_videos.py:60-70 | the ffmpeg argument list; CommandShape and CommandInjective state its properties |
| FixVideos.FixVideo | fix_videos.py:37-102 | what `fix_video` returns and runs and the paths afterwards; MissingInput, FixRuns and NoFfmpegNoSuccess state its properties |
| FixVideos.Reencode | fix_videos.py:72-102 | the ffmpeg run and the removal of the input; RemovalRule and ReencodeFrame state its properties |
| FixVideos.DefaultOutputShape | fix_videos.py:50-53 | the default output is in the input's parent and named stem + `_fixed.mp4` |
| FixVideos.DefaultOutputDiffers | fix_videos.py:50-53 | the default output is never the input |
| FixVideos.CommandShape | fix_videos.py:60-70 | the command has 15 words, with the input after `-i` and the output last, after `-y` |
| FixVideos.CommandInjective | fix_videos.py:60-70 | the command determines the input and the output |
| FixVideos.MissingInput | fix_videos.py:46-48 | a missing input returns False, runs nothing and changes nothing |
| FixVideos.FixRuns | fix_videos.py:60-102 | an existing input runs the template on the chosen output and returns True exactly when ffmpeg exits with status 0 |
| FixVideos.RemovalRule | fix_videos.py:81-86 | the input is removed exactly when the original is not kept, ffmpeg succeeded, the output exists and the removal works; a failure changes nothing |
| FixVideos.ReencodeFrame | fix_videos.py:72-102 | no path other than the input and the output changes; a written output distinct from the input exists afterwards |
| FixVideos.Unfixed | fix_videos.py:120 | a name survives exactly when it does not end with `_fixed.mp4` |
| FixVideos.UpperExtensions | fix_videos.py:117 | the upper-case patterns are .MP4, .WEBM, .MKV, .FLV and .AVI |
| FixVideos.Glob | fix_videos.py:116-117 | the names one pattern selects, in directory order; GlobIn characterises them |
| FixVideos.Gathered | fix_videos.py:115-117 | the names globbed per extension, lower then upper case; GatheredIn characterises them |
| FixVideos.Candidates | fix_videos.py:112-120 | the names the batch repairs; CandidateRule characterises them |
| FixVideos.GlobIn | fix_videos.py:116-117 | a pattern selects exactly the names that end with its extension |
| FixVideos.GatheredIn | fix_videos.py:115-117 | a name is gathered exactly when it matches some extension in lower or upper case |
| FixVideos.CandidateRule | fix_videos.py:112-120 | a name is a candidate exactly when it is in the directory, does not end with `_fixed.mp4` and ends with a video extension in lower or upper case |
| FixVideos.OutputNeverCandidate | fix_videos.py:50-120 | the name of a default output is never selected again |
| FixVideos.Successes | fix_videos.py:129-133 | the count of calls that returned True is at most the number of calls |
| FixVideos.AllSucceeded | fix_videos.py:129-136 | every call succeeded exactly when the count equals the number of files |
| FixVideos.NoFfmpegNoSuccess | fix_videos.py:98-102 | without an ffmpeg executable no call succeeds and no file changes |
| FixVideos.GatherVideos | fix_videos.py:113-117 | the nested extend loop gathers the glob results per extension, lower then upper case |
| FixVideos.RepairEach | fix_videos.py:129-134 | the loop's count is the number of successful calls, threading the file system through them |
| FixVideos.FixAllVideos | fix_videos.py:105-136 | a missing directory, or no candidates, returns with nothing changed; otherwise every candidate is repaired in order and the report gives the number of candidates and the number of successes, which is at most that number |

## Left out

- Flask routing, JSON encoding, CORS, templates, `download_file`, `delete_file`, `get_info` and `get_video_info`: HTTP plumbing and calls into yt-dlp. Only the decisions of `start_download` and `get_status` are modelled.
- Threads: each background job runs to the end as a sequence of calls on the store. Jobs do not interleave, and a status query cannot observe a partly run job.
- Task ids are parameters. The timestamp they come from (app.py:172) is not modelled, so no uniqueness is assumed and a repeated id overwrites its record.
- yt-dlp: the progress events it delivers, the file name it predicts, the paths that exist afterwards and the text of any exception are parameters of the job.
- TaskStore.DownloadTasks.RunJob: the url is not passed on, because the model hands yt-dlp nothing. The options it returns are what the job passes.
- TaskStore.Percent: progress arithmetic is exact. Python computes `downloaded / total * 100` in floating point, and the truncated result can differ from the exact one by one in either direction. For 29 of 100 bytes, `0.29 * 100` is just below 29, so Python records 28 where the model records 29; 57 of 100 gives 56 against 57. A quotient just below an integer can also round up to it. Byte counts, speed and eta are integers or null.
- `check_ffmpeg` and `shutil.which`: whether ffmpeg is present is a parameter. `subprocess.run` is the parameter `run`. A run either succeeds, raises CalledProcessError for a non-zero status, or raises FileNotFoundError. Any other exception aborts the call and the whole batch, and is not modelled. Examples are another OSError, or a UnicodeDecodeError while `text=True` decodes ffmpeg's output. A failed ffmpeg run that leaves a partial output behind is not modelled either.
- The file system is a set of paths. Directory listing order is the order of the `names` and `entries` parameters. Globbing is case-sensitive, as on Linux; `mkdir`, `stat` and `os.remove` are not modelled beyond their effects on that set, and `locked` holds the paths that `os.remove` fails on.
- Paths are strings in normal form: no `.` or `..` parts, no repeated or trailing separators, and not `"."`. Windows separators are not modelled.
- `size_mb` and the date text of a listing: floating-point rounding and local time. The sort key is the modification time in whole seconds of local time. For four-digit years the `%Y-%m-%d %H:%M:%S` text orders exactly as those seconds do; clock changes for daylight saving are ignored.
- All printing, `sys.exit`, the argparse `main` functions and the Windows console encoding blocks.
- TaskStore.ProbeExtension: requires a non-empty list of extensions. The job always passes three.
- FixVideos.FixVideo: the explicit `output_file` argument is modelled, but neither caller passes one.
- The literal format strings: the model builds each expression from a structured table, and `Render` produces the text. The tables are written alternative by alternative, following the source; the equality of each rendered string with the source literal is not proved.
