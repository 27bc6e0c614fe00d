/**
 * The web application's download tasks (app.py:34, 62-139, 161-215). A process-wide dictionary maps
 * task ids to records; `start_download` creates a pending record, a background job marks it
 * downloading, feeds it yt-dlp's progress events and finally marks it completed or failed, and
 * `get_status` reads a record back with defaults for the keys it may lack.
 *
 * The background job runs here as a sequence of calls on the store. What yt-dlp does is a parameter:
 * the progress events it delivers, then either a downloaded file (the file name it predicts and the
 * paths that exist afterwards) or the message of the exception it raised.
 */
module TaskStore {
  import opened Wrappers
  import opened Paths
  import Formats
  import AppOptions

  datatype Status = Pending | Downloading | Completed | Error

  /** The text a status has in a record and in a status response. */
  function StatusText(s: Status): string {
    match s
    case Pending => "pending"
    case Downloading => "downloading"
    case Completed => "completed"
    case Error => "error"
  }

  /** A number or null, as yt-dlp's progress dictionaries and the stored records hold them. */
  datatype Value = Null | Num(n: int)

  /**
   * A task record. `speed` and `eta` are None while the record lacks those keys: they are only added
   * by the first progress event that reports a positive total.
   */
  datatype Task = Task(
    taskId: string,
    url: string,
    quality: string,
    status: Status,
    progress: int,
    filename: Option<string>,
    filepath: Option<string>,
    error: Option<string>,
    speed: Option<Value>,
    eta: Option<Value>)

  /** The record `start_download` stores. */
  function NewTask(id: string, url: string, quality: string): Task {
    Task(id, url, quality, Pending, 0, None, None, None, None, None)
  }

  /** The JSON body of a download request; None: the key is absent. */
  datatype DownloadRequest = DownloadRequest(url: Option<string>, quality: Option<string>)

  function RequestUrl(r: DownloadRequest): string { r.url.GetOr("") }
  function RequestQuality(r: DownloadRequest): string { r.quality.GetOr("best") }

  datatype SubmitResponse = Accepted(taskId: string) | Rejected(error: string)

  const EmptyUrlError: string := "URL不能为空"
  const UnknownTaskError: string := "任务不存在"

  /** What a record may hold in each status. */
  predicate Consistent(t: Task) {
    match t.status
    case Pending =>
      t.progress == 0 && t.filename.None? && t.filepath.None? && t.error.None? && t.speed.None? && t.eta.None?
    case Downloading => t.filename.None? && t.filepath.None? && t.error.None?
    case Completed =>
      t.progress == 100 && t.filepath.Some? && t.filename == Some(Name(t.filepath.value)) && t.error.None?
    case Error => t.error.Some? && t.filename.None? && t.filepath.None?
  }

  // ---------------------------------------------------------------------------------------------
  // Progress events (app.py:129-139)

  /** The keys of a yt-dlp progress dictionary that the hook reads; None: the key is absent. */
  datatype ProgressEvent = ProgressEvent(
    status: string,
    totalBytes: Option<Value>,
    totalBytesEstimate: Option<Value>,
    downloadedBytes: Option<Value>,
    speed: Option<Value>,
    eta: Option<Value>)

  /** Python truthiness of a number or null. */
  predicate Truthy(v: Value) {
    v.Num? && v.n != 0
  }

  /** `d.get('total_bytes') or d.get('total_bytes_estimate', 0)`. */
  function ChosenTotal(ev: ProgressEvent): (v: Value)
    ensures ev.totalBytes.Some? && Truthy(ev.totalBytes.value) ==> v == ev.totalBytes.value
    ensures !(ev.totalBytes.Some? && Truthy(ev.totalBytes.value)) ==>
      v == (if ev.totalBytesEstimate.Some? then ev.totalBytesEstimate.value else Num(0))
  {
    var first := ev.totalBytes.GetOr(Null);
    if Truthy(first) then first else ev.totalBytesEstimate.GetOr(Num(0))
  }

  /**
   * `int((downloaded / total) * 100)` for a positive total, with exact division: the percentage
   * truncated toward zero, neither clamped to 0..100 nor rounded.
   */
  function Percent(downloaded: int, total: int): int
    requires total > 0
  {
    if downloaded >= 0 then (100 * downloaded) / total else -((100 * -downloaded) / total)
  }

  /**
   * The percentage truncates 100 * downloaded / total toward zero; it lies in 0..100 while the
   * download is within the total, and reaches 100 once the total is reached.
   */
  lemma PercentBracket(downloaded: int, total: int)
    requires total > 0
    ensures var p := Percent(downloaded, total);
      0 <= downloaded ==> 0 <= p && p * total <= 100 * downloaded < (p + 1) * total
    ensures var p := Percent(downloaded, total);
      downloaded < 0 ==> p <= 0 && -p * total <= -100 * downloaded < (-p + 1) * total
    ensures 0 <= downloaded <= total ==> 0 <= Percent(downloaded, total) <= 100
    ensures downloaded >= total ==> Percent(downloaded, total) >= 100
  {
    if downloaded >= 0 {
      PercentBounds(downloaded, total);
    } else {
      PercentBounds(-downloaded, total);
    }
  }

  lemma PercentBounds(d: nat, t: int)
    requires t > 0
    ensures 0 <= (100 * d) / t
    ensures d <= t ==> (100 * d) / t <= 100
    ensures d >= t ==> (100 * d) / t >= 100
    ensures ((100 * d) / t) * t <= 100 * d < ((100 * d) / t + 1) * t
  {
    var p := (100 * d) / t;
    FloorDivision(100 * d, t);
    if d <= t {
      MultiplyMonotone(t, d, 100);
      MultiplyCancel(p, 100, t);
    }
    if d >= t {
      MultiplyMonotone(d, t, 100);
      MultiplyCancel(100, p + 1, t);
    }
  }

  /** Euclidean division of a natural number brackets it between two multiples of the divisor. */
  lemma FloorDivision(n: nat, t: int)
    requires t > 0
    ensures (n / t) * t <= n < (n / t + 1) * t
  {
    var q, r := n / t, n % t;
    assert n == q * t + r && 0 <= r < t;
    assert (q + 1) * t == q * t + t;
  }

  lemma MultiplyMonotone(a: int, b: int, t: int)
    requires a >= b && t > 0
    ensures a * t >= b * t
  {
    assert a * t - b * t == (a - b) * t;
  }

  lemma MultiplyCancel(a: int, b: int, t: int)
    requires t > 0
    ensures a * t <= b * t ==> a <= b
    ensures a * t < b * t ==> a < b
  {
    assert a * t - b * t == (a - b) * t;
  }

  /** What one call of the progress hook does to the record, once the task id is known. */
  datatype HookEffect =
    | NoChange
    | Update(progress: int, speed: Value, eta: Value)
    | Raise(message: string)   // a TypeError, which aborts the download

  /** The text of CPython's TypeError for `None > 0`. */
  const CompareNoneError: string := "'>' not supported between instances of 'NoneType' and 'int'"
  /** The text of CPython's TypeError for `None / total`. */
  const DivideNoneError: string := "unsupported operand type(s) for /: 'NoneType' and 'int'"

  /** The progress hook's decision for one event. */
  function ProgressEffect(ev: ProgressEvent): (e: HookEffect)
    ensures ev.status != "downloading" ==> e == NoChange
    ensures e.Update? <==>
      ev.status == "downloading" && ChosenTotal(ev).Num? && ChosenTotal(ev).n > 0 &&
      ev.downloadedBytes != Some(Null)
    ensures e.Update? ==>
      e.progress == Percent(ev.downloadedBytes.GetOr(Num(0)).n, ChosenTotal(ev).n) &&
      e.speed == ev.speed.GetOr(Num(0)) && e.eta == ev.eta.GetOr(Num(0))
    ensures e == Raise(CompareNoneError) <==> ev.status == "downloading" && ChosenTotal(ev).Null?
    ensures e == Raise(DivideNoneError) <==>
      ev.status == "downloading" && ChosenTotal(ev).Num? && ChosenTotal(ev).n > 0 &&
      ev.downloadedBytes == Some(Null)
    ensures e.Raise? ==> e.message in {CompareNoneError, DivideNoneError}
  {
    if ev.status != "downloading" then NoChange
    else
      var total := ChosenTotal(ev);
      var downloaded := ev.downloadedBytes.GetOr(Num(0));
      if total.Null? then Raise(CompareNoneError)
      else if total.n <= 0 then NoChange
      else if downloaded.Null? then Raise(DivideNoneError)
      else Update(Percent(downloaded.n, total.n), ev.speed.GetOr(Num(0)), ev.eta.GetOr(Num(0)))
  }

  /** The record after a hook call that did not raise. */
  function Apply(t: Task, e: HookEffect): Task {
    match e
    case Update(p, s, a) => t.(progress := p, speed := Some(s), eta := Some(a))
    case _ => t
  }

  /** Does the hook raise on this event. */
  predicate Raises(ev: ProgressEvent) {
    ProgressEffect(ev).Raise?
  }

  /**
   * Delivering events in order until the first that makes the hook raise: the record afterwards and
   * the message raised, if any.
   */
  function Deliver(t: Task, events: seq<ProgressEvent>): (Task, Option<string>)
    decreases |events|
  {
    if events == [] then (t, None)
    else
      var e := ProgressEffect(events[0]);
      if e.Raise? then (t, Some(e.message))
      else Deliver(Apply(t, e), events[1..])
  }

  /**
   * Delivery touches only progress, speed and eta; without an update event the record is unchanged;
   * when nothing raises, the last event's update decides the progress.
   */
  lemma {:induction false} DeliverTouches(t: Task, events: seq<ProgressEvent>)
    ensures var r := Deliver(t, events);
      r.0 == t.(progress := r.0.progress, speed := r.0.speed, eta := r.0.eta)
    ensures (forall k :: 0 <= k < |events| ==> !ProgressEffect(events[k]).Update?) ==> Deliver(t, events).0 == t
    ensures var r := Deliver(t, events);
      r.1.None? && events != [] && ProgressEffect(events[|events| - 1]).Update? ==>
        r.0.progress == ProgressEffect(events[|events| - 1]).progress
    decreases |events|
  {
    if events != [] {
      var e := ProgressEffect(events[0]);
      if !e.Raise? {
        DeliverTouches(Apply(t, e), events[1..]);
        assert forall k :: 1 <= k < |events| ==> events[k] == events[1..][k - 1];
      }
    }
  }

  /** Delivery raises exactly when some event makes the hook raise, and then with the message of the first such event. */
  lemma {:induction false} DeliverRaises(t: Task, events: seq<ProgressEvent>)
    ensures Deliver(t, events).1.None? <==> forall k :: 0 <= k < |events| ==> !Raises(events[k])
    ensures var r := Deliver(t, events);
      r.1.Some? ==> exists k :: (0 <= k < |events| && ProgressEffect(events[k]) == Raise(r.1.value) &&
        forall j :: 0 <= j < k ==> !Raises(events[j]))
    decreases |events|
  {
    if events != [] {
      var e := ProgressEffect(events[0]);
      if !e.Raise? {
        var rest := Deliver(Apply(t, e), events[1..]);
        DeliverRaises(Apply(t, e), events[1..]);
        assert forall k :: 1 <= k < |events| ==> events[k] == events[1..][k - 1];
        if rest.1.Some? {
          var k :| 0 <= k < |events[1..]| && ProgressEffect(events[1..][k]) == Raise(rest.1.value) &&
            forall j :: 0 <= j < k ==> !Raises(events[1..][j]);
          assert ProgressEffect(events[k + 1]) == Raise(rest.1.value);
          forall j | 0 <= j < k + 1 ensures !Raises(events[j]) {
            if j > 0 { assert events[j] == events[1..][j - 1]; }
          }
        }
      }
    }
  }

  /** One step of delivery: the first event either raises or is applied before the rest. */
  lemma DeliverStep(t: Task, events: seq<ProgressEvent>)
    requires events != []
    ensures Deliver(t, events) ==
      if Raises(events[0]) then (t, Some(ProgressEffect(events[0]).message))
      else Deliver(Apply(t, ProgressEffect(events[0])), events[1..])
  {
  }

  // ---------------------------------------------------------------------------------------------
  // The completion file probe (app.py:107-122)

  /** The extensions tried, in order, when the predicted file does not exist. */
  const ProbeExtensions: seq<string> := [".mp4", ".webm", ".mkv"]

  /** The ValueError text `with_suffix` raises for a path with an empty name. */
  function EmptyNameError(p: string): string {
    "PosixPath('" + p + "') has an empty name"
  }

  /** `p.with_suffix(ext)` for each extension in turn. */
  function Replaced(p: string, exts: seq<string>): (r: seq<string>)
    requires Name(p) != ""
    ensures |r| == |exts|
    ensures forall k :: 0 <= k < |exts| ==> Some(r[k]) == WithSuffix(p, exts[k])
  {
    if exts == [] then []
    else
      var first, rest := WithSuffix(p, exts[0]).value, Replaced(p, exts[1..]);
      assert forall k :: 0 < k < |exts| ==> exts[k] == exts[1..][k - 1] && ([first] + rest)[k] == rest[k - 1];
      [first] + rest
  }

  /** The first candidate that exists, or `fallback` when none does. */
  function FirstExisting(candidates: seq<string>, existing: set<string>, fallback: string): string {
    if candidates == [] then fallback
    else if candidates[0] in existing then candidates[0]
    else FirstExisting(candidates[1..], existing, fallback)
  }

  /** With a fallback that does not exist, the result is the first existing candidate, or the fallback when none exists. */
  lemma {:induction false} FirstExistingFacts(candidates: seq<string>, existing: set<string>, fallback: string)
    requires fallback !in existing
    ensures var r := FirstExisting(candidates, existing, fallback);
      r != fallback ==> r in existing && exists k :: (0 <= k < |candidates| && r == candidates[k] &&
        forall j :: 0 <= j < k ==> candidates[j] !in existing)
    ensures FirstExisting(candidates, existing, fallback) == fallback <==>
      forall k :: 0 <= k < |candidates| ==> candidates[k] !in existing
  {
    if candidates != [] && candidates[0] !in existing {
      var r := FirstExisting(candidates[1..], existing, fallback);
      FirstExistingFacts(candidates[1..], existing, fallback);
      assert forall k :: 1 <= k < |candidates| ==> candidates[k] == candidates[1..][k - 1];
      if r != fallback {
        var k :| 0 <= k < |candidates[1..]| && r == candidates[1..][k] &&
          forall j :: 0 <= j < k ==> candidates[1..][j] !in existing;
        assert r == candidates[k + 1];
        forall j | 0 <= j < k + 1 ensures candidates[j] !in existing {
          if j > 0 { assert candidates[j] == candidates[1..][j - 1]; }
        }
      }
    }
  }

  /**
   * The file the job reports: the predicted one if it exists, else the first existing candidate with
   * the suffix replaced, else the predicted one. None: `with_suffix` raised (the path has no name).
   */
  function Probe(predicted: string, existing: set<string>, exts: seq<string>): Option<string> {
    if predicted in existing then Some(predicted)
    else if Name(predicted) == "" then None
    else Some(FirstExisting(Replaced(predicted, exts), existing, predicted))
  }

  /**
   * The probe keeps an existing predicted file; it fails exactly when the predicted file is missing
   * and its name is empty; it reports another file only when that file exists and is the first
   * existing candidate; and it falls back to the predicted file exactly when no candidate exists.
   */
  lemma ProbeFacts(predicted: string, existing: set<string>, exts: seq<string>)
    ensures predicted in existing ==> Probe(predicted, existing, exts) == Some(predicted)
    ensures Probe(predicted, existing, exts).None? <==> predicted !in existing && Name(predicted) == ""
    ensures var r := Probe(predicted, existing, exts);
      r.Some? && r.value != predicted ==> (r.value in existing && Name(predicted) != "" &&
        exists k :: (0 <= k < |exts| && r.value == Replaced(predicted, exts)[k] &&
          forall j :: 0 <= j < k ==> Replaced(predicted, exts)[j] !in existing))
    ensures predicted !in existing && Name(predicted) != "" && Probe(predicted, existing, exts) == Some(predicted) ==>
      forall k :: 0 <= k < |exts| ==> Replaced(predicted, exts)[k] !in existing
    ensures (predicted !in existing && Name(predicted) != "" &&
      forall k :: 0 <= k < |exts| ==> Replaced(predicted, exts)[k] !in existing) ==>
      Probe(predicted, existing, exts) == Some(predicted)
  {
    if predicted !in existing && Name(predicted) != "" {
      var candidates := Replaced(predicted, exts);
      FirstExistingFacts(candidates, existing, predicted);
    }
  }

  /**
   * The probe as the job runs it: a loop over the extensions that stops at the first hit. The job
   * always passes the three extensions of `ProbeExtensions`.
   */
  method ProbeExtension(predicted: string, existing: set<string>, exts: seq<string>) returns (r: Option<string>)
    requires exts != []
    ensures r == Probe(predicted, existing, exts)
  {
    if predicted in existing {
      return Some(predicted);
    }
    r := Some(predicted);
    var k := 0;
    while k < |exts|
      invariant 0 <= k <= |exts|
      invariant r == Some(predicted)
      invariant k > 0 ==> Name(predicted) != ""
      invariant k > 0 ==> forall j :: 0 <= j < k ==> Replaced(predicted, exts)[j] !in existing
    {
      var candidate := WithSuffix(predicted, exts[k]);
      if candidate.None? {
        return None;
      }
      ghost var candidates := Replaced(predicted, exts);
      assert candidates[k] == candidate.value;
      if candidate.value in existing {
        r := candidate;
        FirstHit(candidates, existing, predicted, k);
        return;
      }
      assert forall j :: 0 <= j < k + 1 ==> candidates[j] !in existing;
      k := k + 1;
    }
    if k > 0 {
      FirstExistingFacts(Replaced(predicted, exts), existing, predicted);
    }
  }

  /** The candidate at `k` is the first existing one when it exists and none before it does. */
  lemma FirstHit(candidates: seq<string>, existing: set<string>, fallback: string, k: int)
    requires fallback !in existing && 0 <= k < |candidates| && candidates[k] in existing
    requires forall j :: 0 <= j < k ==> candidates[j] !in existing
    ensures FirstExisting(candidates, existing, fallback) == candidates[k]
  {
    var r := FirstExisting(candidates, existing, fallback);
    FirstExistingFacts(candidates, existing, fallback);
    if r != fallback {
      var i :| 0 <= i < |candidates| && r == candidates[i] && forall j :: 0 <= j < i ==> candidates[j] !in existing;
    }
  }

  // ---------------------------------------------------------------------------------------------
  // The background job (app.py:62-127)

  function BeginRecord(t: Task): Task {
    t.(status := Downloading, progress := 0)
  }

  function CompleteRecord(t: Task, path: string): Task {
    t.(status := Completed, progress := 100, filename := Some(Name(path)), filepath := Some(path))
  }

  function FailRecord(t: Task, message: string): Task {
    t.(status := Error, error := Some(message))
  }

  /** What yt-dlp's `extract_info(url, download=True)` ends with, after the progress events. */
  datatype DownloadOutcome =
    | Downloaded(predicted: string, existing: set<string>)   // prepare_filename(info), and the paths that exist
    | DownloadFailed(message: string)                        // str() of the exception

  /** The record after the download: the hook's error, yt-dlp's error, the probe's error, or the file. */
  function SettleRecord(t: Task, raised: Option<string>, outcome: DownloadOutcome): Task {
    if raised.Some? then FailRecord(t, raised.value)
    else match outcome
      case DownloadFailed(m) => FailRecord(t, m)
      case Downloaded(p, existing) =>
        match Probe(p, existing, ProbeExtensions)
        case None => FailRecord(t, EmptyNameError(p))
        case Some(f) => CompleteRecord(t, f)
  }

  /** The record a job leaves behind, starting from the record it found. */
  function JobRecord(t: Task, events: seq<ProgressEvent>, outcome: DownloadOutcome): Task {
    var delivered := Deliver(BeginRecord(t), events);
    SettleRecord(delivered.0, delivered.1, outcome)
  }

  /** A job that starts from a fresh record ends completed or failed, consistently, with its identity kept. */
  lemma JobSettles(t: Task, events: seq<ProgressEvent>, outcome: DownloadOutcome)
    requires t.filename.None? && t.filepath.None? && t.error.None?
    ensures JobRecord(t, events, outcome).status in {Completed, Error}
    ensures Consistent(JobRecord(t, events, outcome))
    ensures JobRecord(t, events, outcome).taskId == t.taskId
    ensures JobRecord(t, events, outcome).url == t.url
    ensures JobRecord(t, events, outcome).quality == t.quality
  {
    DeliverTouches(BeginRecord(t), events);
    DeliverRaises(BeginRecord(t), events);
  }

  /**
   * A job completes exactly when no progress event made the hook raise, yt-dlp reported a file and the
   * probe found a name; the record then names the probed file. Otherwise it fails with the error of
   * the first raising hook call, else yt-dlp's message, else the ValueError of the probe.
   */
  lemma JobOutcome(t: Task, events: seq<ProgressEvent>, outcome: DownloadOutcome)
    ensures JobRecord(t, events, outcome).status == Completed <==>
      (forall k :: 0 <= k < |events| ==> !Raises(events[k])) &&
      outcome.Downloaded? && Probe(outcome.predicted, outcome.existing, ProbeExtensions).Some?
    ensures JobRecord(t, events, outcome).status == Completed ==>
      JobRecord(t, events, outcome).progress == 100 &&
      JobRecord(t, events, outcome).filepath == Probe(outcome.predicted, outcome.existing, ProbeExtensions) &&
      JobRecord(t, events, outcome).error == t.error
    ensures (exists k :: 0 <= k < |events| && Raises(events[k])) ==>
      JobRecord(t, events, outcome).status == Error &&
      exists k :: (0 <= k < |events| && ProgressEffect(events[k]) == Raise(JobRecord(t, events, outcome).error.value) &&
        forall j :: 0 <= j < k ==> !Raises(events[j]))
    ensures (forall k :: 0 <= k < |events| ==> !Raises(events[k])) && outcome.DownloadFailed? ==>
      JobRecord(t, events, outcome).status == Error && JobRecord(t, events, outcome).error == Some(outcome.message)
    ensures ((forall k :: 0 <= k < |events| ==> !Raises(events[k])) && outcome.Downloaded? &&
      Probe(outcome.predicted, outcome.existing, ProbeExtensions).None?) ==>
      JobRecord(t, events, outcome).status == Error &&
      JobRecord(t, events, outcome).error == Some(EmptyNameError(outcome.predicted))
    ensures JobRecord(t, events, outcome).status == Error ==>
      JobRecord(t, events, outcome).filename == t.filename && JobRecord(t, events, outcome).filepath == t.filepath
  {
    var delivered := Deliver(BeginRecord(t), events);
    DeliverTouches(BeginRecord(t), events);
    DeliverRaises(BeginRecord(t), events);
    if delivered.1.Some? {
      assert JobRecord(t, events, outcome) == FailRecord(delivered.0, delivered.1.value);
    }
  }

  lemma Extend(h: seq<Status>, a: Status, b: Status)
    ensures h + [a] + [b] == h + [a, b]
    ensures h == [Pending] ==> h + [a, b] == [Pending, a, b]
  {
  }

  lemma UpdateTwice<K, V>(m: map<K, V>, k: K, a: V, b: V)
    ensures m[k := a][k := b] == m[k := b]
  {
  }

  /** The history of `status` values a record may have gone through, ending in its current one. */
  ghost predicate LegalHistory(h: seq<Status>, current: Status) {
    1 <= |h| <= 3 && h[0] == Pending && (|h| >= 2 ==> h[1] == Downloading) &&
    (|h| == 3 ==> h[2] != Pending && h[2] != Downloading) && h[|h| - 1] == current
  }

  ghost function TrailOf(history: map<string, seq<Status>>, id: string): seq<Status> {
    if id in history then history[id] else []
  }

  /** Every record is stored under its own id, fits its status and has a legal history. */
  ghost predicate ValidStore(tasks: map<string, Task>, history: map<string, seq<Status>>) {
    tasks.Keys == history.Keys &&
    forall id :: id in tasks ==>
      tasks[id].taskId == id && Consistent(tasks[id]) && LegalHistory(history[id], tasks[id].status)
  }

  /** Running the job on a pending record keeps the store valid. */
  lemma JobKeepsValid(tasks: map<string, Task>, history: map<string, seq<Status>>, id: string,
                      events: seq<ProgressEvent>, outcome: DownloadOutcome,
                      tasks': map<string, Task>, history': map<string, seq<Status>>)
    requires ValidStore(tasks, history) && id in tasks && history[id] == [Pending]
    requires tasks[id].status == Pending
    requires tasks' == tasks[id := JobRecord(tasks[id], events, outcome)]
    requires history' == history[id := [Pending, Downloading, tasks'[id].status]]
    ensures ValidStore(tasks', history')
  {
    var rec := JobRecord(tasks[id], events, outcome);
    JobSettles(tasks[id], events, outcome);
    assert rec.taskId == id && Consistent(rec) && LegalHistory(history'[id], rec.status);
    forall other | other in tasks'
      ensures tasks'[other].taskId == other && Consistent(tasks'[other])
      ensures LegalHistory(history'[other], tasks'[other].status)
    {
      if other != id {
        assert tasks'[other] == tasks[other] && history'[other] == history[other];
      }
    }
  }

  /** A task as `get_status` reports it, with 0 for a missing progress, speed or eta. */
  datatype TaskView = TaskView(
    taskId: string,
    status: string,
    progress: int,
    filename: Option<string>,
    error: Option<string>,
    speed: Value,
    eta: Value)

  datatype StatusResponse = Found(task: TaskView) | NotFound(error: string)

  function View(t: Task): TaskView {
    TaskView(t.taskId, StatusText(t.status), t.progress, t.filename, t.error, t.speed.GetOr(Num(0)), t.eta.GetOr(Num(0)))
  }

  /** `download_tasks`, with the statuses each record has taken since it was stored. */
  class DownloadTasks {
    var tasks: map<string, Task>
    ghost var history: map<string, seq<Status>>

    ghost predicate Valid()
      reads this
    {
      ValidStore(tasks, history)
    }

    constructor ()
      ensures Valid() && tasks == map[] && history == map[]
    {
      tasks := map[];
      history := map[];
    }

    /**
     * `start_download` (app.py:161-194): an empty or missing URL is refused and nothing is stored;
     * otherwise a pending record is stored under `id`, replacing any record with the same id.
     */
    method StartDownload(request: DownloadRequest, id: string) returns (resp: SubmitResponse)
      requires Valid()
      modifies this
      ensures Valid()
      ensures RequestUrl(request) == "" ==>
        resp == Rejected(EmptyUrlError) && tasks == old(tasks) && history == old(history)
      ensures RequestUrl(request) != "" ==>
        resp == Accepted(id) &&
        tasks == old(tasks)[id := NewTask(id, RequestUrl(request), RequestQuality(request))] &&
        history == old(history)[id := [Pending]]
    {
      var url := RequestUrl(request);
      var quality := RequestQuality(request);
      if url == "" {
        return Rejected(EmptyUrlError);
      }
      tasks := tasks[id := NewTask(id, url, quality)];
      history := history[id := [Pending]];
      resp := Accepted(id);
    }

    /** The job's first step (app.py:102-103). An unknown id raises KeyError, which ends the job. */
    method Begin(id: string)
      modifies this
      ensures id in old(tasks) ==>
        tasks == old(tasks)[id := BeginRecord(old(tasks)[id])] &&
        history == old(history)[id := TrailOf(old(history), id) + [Downloading]]
      ensures id !in old(tasks) ==> tasks == old(tasks) && history == old(history)
    {
      if id in tasks {
        tasks := tasks[id := BeginRecord(tasks[id])];
        history := history[id := TrailOf(history, id) + [Downloading]];
      }
    }

    /** `update_progress` (app.py:129-139); returns the message of the TypeError it raises, if any. */
    method OnProgress(id: string, ev: ProgressEvent) returns (raised: Option<string>)
      modifies this
      ensures history == old(history)
      ensures id !in old(tasks) ==> tasks == old(tasks) && raised.None?
      ensures id in old(tasks) ==>
        tasks == old(tasks)[id := Apply(old(tasks)[id], ProgressEffect(ev))] &&
        raised == (if ProgressEffect(ev).Raise? then Some(ProgressEffect(ev).message) else None)
    {
      raised := None;
      if id in tasks {
        var e := ProgressEffect(ev);
        if e.Raise? {
          raised := Some(e.message);
        } else if e.Update? {
          tasks := tasks[id := tasks[id].(progress := e.progress, speed := Some(e.speed), eta := Some(e.eta))];
        }
      }
    }

    /** The success step (app.py:119-122). */
    method Complete(id: string, path: string)
      modifies this
      ensures id in old(tasks) ==>
        tasks == old(tasks)[id := CompleteRecord(old(tasks)[id], path)] &&
        history == old(history)[id := TrailOf(old(history), id) + [Completed]]
      ensures id !in old(tasks) ==> tasks == old(tasks) && history == old(history)
    {
      if id in tasks {
        tasks := tasks[id := CompleteRecord(tasks[id], path)];
        history := history[id := TrailOf(history, id) + [Completed]];
      }
    }

    /** The exception handler (app.py:124-126). */
    method Fail(id: string, message: string)
      modifies this
      ensures id in old(tasks) ==>
        tasks == old(tasks)[id := FailRecord(old(tasks)[id], message)] &&
        history == old(history)[id := TrailOf(old(history), id) + [Error]]
      ensures id !in old(tasks) ==> tasks == old(tasks) && history == old(history)
    {
      if id in tasks {
        tasks := tasks[id := FailRecord(tasks[id], message)];
        history := history[id := TrailOf(history, id) + [Error]];
      }
    }

    /** The progress hook called on each event in turn, until the first call that raises. */
    method DeliverEvents(id: string, events: seq<ProgressEvent>) returns (raised: Option<string>)
      requires id in tasks
      modifies this
      ensures history == old(history)
      ensures tasks == old(tasks)[id := Deliver(old(tasks)[id], events).0]
      ensures raised == Deliver(old(tasks)[id], events).1
    {
      raised := None;
      var i := 0;
      while i < |events| && raised.None?
        invariant 0 <= i <= |events|
        invariant id in tasks && tasks == old(tasks)[id := tasks[id]]
        invariant history == old(history)
        invariant raised.None? ==> Deliver(tasks[id], events[i..]) == Deliver(old(tasks)[id], events)
        invariant raised.Some? ==> (tasks[id], raised) == Deliver(old(tasks)[id], events)
      {
        ghost var before := tasks[id];
        ghost var e := ProgressEffect(events[i]);
        DeliverStep(before, events[i..]);
        assert events[i..][0] == events[i];
        assert events[i..][1..] == events[i + 1..];
        raised := OnProgress(id, events[i]);
        assert tasks[id] == Apply(before, e);
        i := i + 1;
      }
      if raised.None? {
        assert events[i..] == [];
      }
    }

    /**
     * `download_video_task` (app.py:62-126): builds the options handed to yt-dlp, then marks the task
     * downloading, delivers the progress events until the hook raises, and records the outcome. Only
     * `task_id` is touched; an id missing from the store ends the job with no change.
     */
    method RunJob(id: string, quality: string, hasFfmpeg: bool, events: seq<ProgressEvent>, outcome: DownloadOutcome)
      returns (opts: Formats.YdlOptions)
      modifies this
      ensures opts == AppOptions.Options(hasFfmpeg, quality)
      ensures id !in old(tasks) ==> tasks == old(tasks) && history == old(history)
      ensures id in old(tasks) ==> tasks == old(tasks)[id := JobRecord(old(tasks)[id], events, outcome)]
      ensures id in old(tasks) ==>
        history == old(history)[id := TrailOf(old(history), id) + [Downloading, tasks[id].status]]
    {
      opts := AppOptions.Options(hasFfmpeg, quality);
      if id !in tasks {
        return;
      }
      ghost var trail := TrailOf(history, id);
      ghost var began := BeginRecord(tasks[id]);
      ghost var delivered := Deliver(began, events);
      Begin(id);
      var raised := DeliverEvents(id, events);
      Settle(id, raised, outcome);
      ghost var settled := SettleRecord(delivered.0, delivered.1, outcome);
      UpdateTwice(old(tasks), id, began, delivered.0);
      UpdateTwice(old(tasks), id, delivered.0, settled);
      UpdateTwice(old(history), id, trail + [Downloading], trail + [Downloading] + [settled.status]);
      Extend(trail, Downloading, settled.status);
    }

    /** The end of the job (app.py:107-126): the file the job found is recorded, or the error it met. */
    method Settle(id: string, raised: Option<string>, outcome: DownloadOutcome)
      requires id in tasks
      modifies this
      ensures tasks == old(tasks)[id := SettleRecord(old(tasks)[id], raised, outcome)]
      ensures history == old(history)[id := TrailOf(old(history), id) + [tasks[id].status]]
    {
      if raised.Some? {
        Fail(id, raised.value);
        return;
      }
      match outcome
      case DownloadFailed(m) =>
        Fail(id, m);
      case Downloaded(p, existing) =>
        var found := ProbeExtension(p, existing, ProbeExtensions);
        if found.None? {
          Fail(id, EmptyNameError(p));
        } else {
          Complete(id, found.value);
        }
    }

    /**
     * A whole request: `start_download`, then its background job run to the end. A refused request
     * changes nothing and starts no job; an accepted one leaves a settled record that went
     * pending, downloading, then completed or error.
     */
    method Submit(request: DownloadRequest, id: string, hasFfmpeg: bool, events: seq<ProgressEvent>, outcome: DownloadOutcome)
      returns (resp: SubmitResponse, opts: Option<Formats.YdlOptions>)
      requires Valid()
      modifies this
      ensures Valid()
      ensures RequestUrl(request) == "" ==>
        resp == Rejected(EmptyUrlError) && opts.None? && tasks == old(tasks) && history == old(history)
      ensures RequestUrl(request) != "" ==> resp == Accepted(id)
      ensures RequestUrl(request) != "" ==> opts == Some(AppOptions.Options(hasFfmpeg, RequestQuality(request)))
      ensures RequestUrl(request) != "" ==>
        tasks == old(tasks)[id := JobRecord(NewTask(id, RequestUrl(request), RequestQuality(request)), events, outcome)]
      ensures RequestUrl(request) != "" ==> history == old(history)[id := [Pending, Downloading, tasks[id].status]]
    {
      resp := StartDownload(request, id);
      if resp.Rejected? {
        return resp, None;
      }
      assert RequestUrl(request) != "";
      ghost var stored := NewTask(id, RequestUrl(request), RequestQuality(request));
      ghost var pendingTasks, pendingHistory := tasks, history;
      assert pendingTasks == old(tasks)[id := stored] && pendingHistory == old(history)[id := [Pending]];
      assert TrailOf(pendingHistory, id) == [Pending];
      var o := RunJob(id, RequestQuality(request), hasFfmpeg, events, outcome);
      opts := Some(o);
      ghost var settled := tasks[id].status;
      Extend([Pending], Downloading, settled);
      assert history == pendingHistory[id := [Pending, Downloading, settled]];
      UpdateTwice(old(history), id, [Pending], [Pending, Downloading, settled]);
      JobKeepsValid(pendingTasks, pendingHistory, id, events, outcome, tasks, history);
    }

    /** `get_status` (app.py:197-215). */
    function GetStatus(id: string): (r: StatusResponse)
      reads this
      ensures r.NotFound? <==> id !in tasks
      ensures r.NotFound? ==> r.error == UnknownTaskError
      ensures r.Found? ==> r.task == View(tasks[id])
    {
      if id !in tasks then NotFound(UnknownTaskError) else Found(View(tasks[id]))
    }
  }

  /** What `get_status` shows for a settled record: a completed one names its file and has no error. */
  lemma SettledView(t: Task)
    requires Consistent(t)
    ensures t.status == Completed ==>
      View(t).status == "completed" && View(t).progress == 100 && View(t).filename.Some? && View(t).error.None?
    ensures t.status == Error ==> View(t).status == "error" && View(t).error.Some? && View(t).filename.None?
    ensures t.status == Pending ==>
      View(t).status == "pending" && View(t).progress == 0 && View(t).speed == Num(0) && View(t).eta == Num(0)
  {
  }
}
