/** The server's collection job (server/src/services/screenshotCollector.ts): one job works
    through its target URLs strictly one after another, keeps a live status object with
    completed/failed counters and the records collected so far, writes one image file per
    URL into the job's upload directory, and sends a copy of the status after every step.
    The file system, the screenshot API, the placeholder renderer, the clock and URL parsing
    are parameters; a status emission is the value of the status object at that moment. */
module ServerCollector {
  import opened Common
  import Config
  import CollectApi

  type Bytes = CollectApi.Bytes

  /** One collected screenshot; `error` is never set by this collector. */
  datatype ShotRecord = ShotRecord(
    id: string,
    url: string,
    title: string,
    category: string,
    filename: string,
    timestamp: string,
    error: Option<string>)

  /** The fields of the status object, as one emission serialises them. */
  datatype StatusView = StatusView(
    jobId: string,
    total: int,
    completed: int,
    failed: int,
    inProgress: bool,
    screenshots: seq<ShotRecord>)

  /** The status object of a job, shared with whoever called `getStatus()`. */
  class CollectionStatus {
    var jobId: string
    var total: int
    var completed: int
    var failed: int
    var inProgress: bool
    var screenshots: seq<ShotRecord>

    constructor(jobId: string)
      ensures View() == StatusView(jobId, 0, 0, 0, false, [])
    {
      this.jobId := jobId;
      total := 0;
      completed := 0;
      failed := 0;
      inProgress := false;
      screenshots := [];
    }

    function View(): StatusView
      reads this
    {
      StatusView(jobId, total, completed, failed, inProgress, screenshots)
    }
  }

  /** What processing one URL meets: the API response, the placeholder rendering, whether the
      image write succeeds, and the clock. */
  datatype UrlInput = UrlInput(api: Outcome<Bytes>, placeholder: Outcome<Bytes>, writeOk: bool, timestamp: string)

  /** The file name of the image of the URL at `index`. */
  function ScreenshotFilename(index: nat): string {
    "screenshot_" + NatToString(index) + ".jpg"
  }

  /** The id of the record of the URL at `index`. */
  function RecordId(jobId: string, index: nat): string {
    jobId + "_" + NatToString(index)
  }

  /** No two URLs of a job share an image file. */
  lemma FilenamesUnique(i: nat, j: nat)
    requires i != j
    ensures ScreenshotFilename(i) != ScreenshotFilename(j)
  {
    IndexedNameInjective("screenshot_", ".jpg", i, j);
  }

  /** No two records of a job share an id. */
  lemma RecordIdsUnique(jobId: string, i: nat, j: nat)
    requires i != j
    ensures RecordId(jobId, i) != RecordId(jobId, j)
  {
    IndexedNameInjective(jobId + "_", "", i, j);
    assert RecordId(jobId, i) == jobId + "_" + NatToString(i) + "";
    assert RecordId(jobId, j) == jobId + "_" + NatToString(j) + "";
  }

  /** The URLs a job works through: the custom list when it is not empty, otherwise the
      flattened default table, cut by `slice(0, count)`. */
  function TargetUrls(customUrls: seq<string>, count: int, table: Config.Table): (r: seq<string>)
    ensures |customUrls| > 0 ==> r <= customUrls
    ensures |customUrls| == 0 ==> r <= Config.AllUrls(table)
    ensures count >= 0 ==>
              |r| == Min(count, if |customUrls| > 0 then |customUrls| else Config.TotalLength(table))
  {
    Config.AllUrlsLength(table);
    SlicePrefix(if |customUrls| > 0 then customUrls else Config.AllUrls(table), count)
  }

  /** The category of `url`: the name of the first category (in table order) whose list
      contains it, otherwise `"other"`; unlike the other collectors, an empty name is kept. */
  function CategoryFor(table: Config.Table, url: string): (c: string)
    ensures Config.FirstIndex(table, url).None? ==> c == "other"
    ensures Config.FirstIndex(table, url).Some? ==> c == table[Config.FirstIndex(table, url).value].name
  {
    Config.FindCategory(table, url).GetOr("other")
  }

  /** `getScreenshot(url)`: the API when a (truthy) key is set, with the placeholder as the
      fallback when the request fails; without a key, the placeholder. Rendering the
      placeholder can itself reject. */
  function GetScreenshot(apiKey: Option<string>, input: UrlInput): (r: Outcome<Bytes>)
    ensures !Truthy(apiKey) ==> r == input.placeholder
    ensures Truthy(apiKey) && input.api.Ok? ==> r == input.api
    ensures Truthy(apiKey) && input.api.Threw? ==> r == input.placeholder
    ensures r.Threw? ==> r == input.placeholder
  {
    CollectApi.GetScreenshotFromApi(apiKey.GetOr(""), input.api, input.placeholder)
  }

  /** What `processUrl` leaves behind: the record it pushed, if any, and the image it wrote,
      if any. */
  datatype UrlStep = UrlStep(record: Option<ShotRecord>, file: Option<Bytes>)

  /** `processUrl(url, index)`. Everything inside its `try` that fails counts the URL as
      failed; a URL whose host name does not parse fails only after its image was written. */
  function ProcessUrlSpec(jobId: string, apiKey: Option<string>, table: Config.Table, url: string,
                          index: nat, input: UrlInput, hostOf: string -> Option<string>): (s: UrlStep)
    ensures s.file.Some? <==> GetScreenshot(apiKey, input).Ok? && input.writeOk
    ensures s.file.Some? ==> s.file.value == GetScreenshot(apiKey, input).value
    ensures s.record.Some? <==> s.file.Some? && hostOf(url).Some?
    ensures s.record.Some? ==>
              && s.record.value.id == RecordId(jobId, index)
              && s.record.value.url == url
              && s.record.value.title == hostOf(url).value
              && s.record.value.category == CategoryFor(table, url)
              && s.record.value.filename == ScreenshotFilename(index)
              && s.record.value.timestamp == input.timestamp
              && s.record.value.error.None?
  {
    match GetScreenshot(apiKey, input)
    case Threw(_) => UrlStep(None, None)
    case Ok(image) =>
      if !input.writeOk then UrlStep(None, None)
      else
        match hostOf(url)
        case None => UrlStep(None, Some(image))
        case Some(host) =>
          UrlStep(Some(ShotRecord(RecordId(jobId, index), url, host, CategoryFor(table, url),
                                  ScreenshotFilename(index), input.timestamp, None)),
                  Some(image))
  }

  /** How the status changes when `processUrl` leaves `s` behind. */
  function Apply(v: StatusView, s: UrlStep): StatusView {
    if s.record.Some? then v.(screenshots := v.screenshots + [s.record.value], completed := v.completed + 1)
    else v.(failed := v.failed + 1)
  }

  /** Everything a job's loop depends on. */
  datatype Job = Job(
    jobId: string,
    apiKey: Option<string>,
    table: Config.Table,
    targets: seq<string>,
    inputs: nat -> UrlInput,
    hostOf: string -> Option<string>)

  function StepAt(job: Job, k: nat): UrlStep
    requires k < |job.targets|
  {
    ProcessUrlSpec(job.jobId, job.apiKey, job.table, job.targets[k], k, job.inputs(k), job.hostOf)
  }

  /** The status after the first `n` targets, starting from `v`. */
  function After(job: Job, v: StatusView, n: nat): StatusView
    requires n <= |job.targets|
  {
    if n == 0 then v else Apply(After(job, v, n - 1), StepAt(job, n - 1))
  }

  /** The upload directory after the first `n` targets, starting from `files`. */
  function Files(job: Job, files: map<string, Bytes>, n: nat): map<string, Bytes>
    requires n <= |job.targets|
  {
    if n == 0 then files
    else
      var rest := Files(job, files, n - 1);
      match StepAt(job, n - 1).file
      case None => rest
      case Some(image) => rest[ScreenshotFilename(n - 1) := image]
  }

  /** The emissions after each of the first `n` targets. */
  function Emits(job: Job, v: StatusView, n: nat): seq<StatusView>
    requires n <= |job.targets|
  {
    if n == 0 then [] else Emits(job, v, n - 1) + [After(job, v, n)]
  }

  /** The number of the first `n` targets that produced a record. */
  function Succeeded(job: Job, n: nat): nat
    requires n <= |job.targets|
  {
    if n == 0 then 0 else Succeeded(job, n - 1) + (if StepAt(job, n - 1).record.Some? then 1 else 0)
  }

  /** The records of the first `n` targets, in target order. */
  function Records(job: Job, n: nat): seq<ShotRecord>
    requires n <= |job.targets|
  {
    if n == 0 then []
    else
      var s := StepAt(job, n - 1);
      Records(job, n - 1) + (if s.record.Some? then [s.record.value] else [])
  }

  /** Every target counts exactly once, as completed or as failed, and a record is kept for
      every completed one and for no other: the counters rise by the number of targets in
      all, and the list grows by the completed records in target order. */
  lemma {:induction false} AfterCounts(job: Job, v: StatusView, n: nat)
    requires n <= |job.targets|
    ensures Succeeded(job, n) <= n && |Records(job, n)| == Succeeded(job, n)
    ensures After(job, v, n) == v.(completed := v.completed + Succeeded(job, n),
                                   failed := v.failed + (n - Succeeded(job, n)),
                                   screenshots := v.screenshots + Records(job, n))
    decreases n
  {
    if n > 0 {
      AfterCounts(job, v, n - 1);
    }
  }

  /** Each record is the one its target produced: its id and file name are those of its own
      index, and the records keep target order. */
  lemma {:induction false} RecordsInOrder(job: Job, n: nat)
    requires n <= |job.targets|
    ensures forall r :: r in Records(job, n) ==>
              exists k :: 0 <= k < n && StepAt(job, k).record == Some(r)
                            && r.id == RecordId(job.jobId, k) && r.filename == ScreenshotFilename(k)
    decreases n
  {
    if n > 0 {
      RecordsInOrder(job, n - 1);
    }
  }

  /** The image of every target that wrote one stays in the directory under that target's
      name: no later target overwrites it. */
  lemma {:induction false} FilesKept(job: Job, files: map<string, Bytes>, n: nat)
    requires n <= |job.targets|
    ensures forall k :: 0 <= k < n && StepAt(job, k).file.Some? ==>
              ScreenshotFilename(k) in Files(job, files, n)
              && Files(job, files, n)[ScreenshotFilename(k)] == StepAt(job, k).file.value
    decreases n
  {
    if n > 0 {
      var rest := Files(job, files, n - 1);
      FilesKept(job, files, n - 1);
      forall k | 0 <= k < n && StepAt(job, k).file.Some?
        ensures ScreenshotFilename(k) in Files(job, files, n)
        ensures Files(job, files, n)[ScreenshotFilename(k)] == StepAt(job, k).file.value
      {
        if k < n - 1 {
          FilenamesUnique(k, n - 1);
          assert ScreenshotFilename(k) in rest && rest[ScreenshotFilename(k)] == StepAt(job, k).file.value;
        }
      }
    }
  }

  /** A name that is no target's file name is left as it was. */
  lemma {:induction false} OtherFilesUnchanged(job: Job, files: map<string, Bytes>, n: nat, name: string)
    requires n <= |job.targets|
    requires forall k :: 0 <= k < n ==> name != ScreenshotFilename(k)
    ensures name in Files(job, files, n) <==> name in files
    ensures name in files ==> Files(job, files, n)[name] == files[name]
    decreases n
  {
    if n > 0 {
      OtherFilesUnchanged(job, files, n - 1, name);
    }
  }

  class ScreenshotCollector {
    const jobId: string
    const apiKey: Option<string>
    const status: CollectionStatus
    /** The status copies sent on the job's channel, oldest first. */
    var emitted: seq<StatusView>
    /** The images in the job's upload directory, by file name. */
    var files: map<string, Bytes>
    /** The content of the job's `metadata.json`, once written. */
    var metadataJson: Option<seq<ShotRecord>>

    constructor(jobId: string, apiKey: Option<string>)
      ensures this.jobId == jobId && this.apiKey == apiKey
      ensures fresh(status) && status.View() == StatusView(jobId, 0, 0, 0, false, [])
      ensures emitted == [] && files == map[] && metadataJson == None
    {
      this.jobId := jobId;
      this.apiKey := apiKey;
      status := new CollectionStatus(jobId);
      emitted := [];
      files := map[];
      metadataJson := None;
    }

    /** `emitStatus()`: sends the status as it is now. */
    method Emit()
      modifies this`emitted
      ensures emitted == old(emitted) + [status.View()]
    {
      emitted := emitted + [status.View()];
    }

    /** `getStatus()`: the live status object itself, not a copy, so a caller sees every later
        change to it. */
    method GetStatus() returns (s: CollectionStatus)
      ensures s == status
    {
      s := status;
    }

    /** `getCategoryForUrl(url)`: scans the table in order and returns at the first category
        whose list contains the URL. */
    method GetCategoryForUrl(table: Config.Table, url: string) returns (c: string)
      ensures c == CategoryFor(table, url)
    {
      for k := 0 to |table|
        invariant forall j :: 0 <= j < k ==> url !in table[j].urls
      {
        if url in table[k].urls {
          return table[k].name;
        }
      }
      return "other";
    }

    /** `processUrl(url, index)` */
    method ProcessUrl(table: Config.Table, url: string, index: nat, input: UrlInput,
                      hostOf: string -> Option<string>)
      modifies status, this`files
      ensures var s := ProcessUrlSpec(jobId, apiKey, table, url, index, input, hostOf);
              && status.View() == Apply(old(status.View()), s)
              && files == if s.file.Some? then old(files)[ScreenshotFilename(index) := s.file.value]
                          else old(files)
    {
      var category := GetCategoryForUrl(table, url);
      var filename := "screenshot_" + NatToString(index) + ".jpg";
      var screenshot := GetScreenshot(apiKey, input);
      if screenshot.Threw? || !input.writeOk {
        status.failed := status.failed + 1;
        return;
      }
      files := files[filename := screenshot.value];
      var host := hostOf(url);
      if host.None? {
        status.failed := status.failed + 1;
        return;
      }
      var record := ShotRecord(jobId + "_" + NatToString(index), url, host.value, category,
                               filename, input.timestamp, None);
      status.screenshots := status.screenshots + [record];
      status.completed := status.completed + 1;
    }

    /** `startCollection(customUrls, count)`. `mkdirOk` says whether the upload directory
        could be created and `saveOk` whether `metadata.json` could be written; `inputs(i)` is
        what the URL at index `i` meets. The status is marked in progress and sent before any
        work, and marked idle and sent again on every path. */
    method StartCollection(customUrls: seq<string>, count: int, table: Config.Table, mkdirOk: bool,
                           saveOk: bool, inputs: nat -> UrlInput, hostOf: string -> Option<string>)
      modifies this`emitted, this`files, this`metadataJson, status
      ensures var v0 := old(status.View());
              var job := Job(jobId, apiKey, table, TargetUrls(customUrls, count, table), inputs, hostOf);
              var v1 := v0.(inProgress := true, total := |job.targets|);
              && (!mkdirOk ==>
                    && status.View() == v0.(inProgress := false)
                    && files == old(files) && metadataJson == old(metadataJson)
                    && emitted == old(emitted) + [v0.(inProgress := true), status.View()])
              && (mkdirOk ==>
                    && status.View() == After(job, v1, |job.targets|).(inProgress := false)
                    && files == Files(job, old(files), |job.targets|)
                    && metadataJson == (if saveOk then Some(status.screenshots) else old(metadataJson))
                    && emitted == old(emitted) + [v0.(inProgress := true)]
                                  + Emits(job, v1, |job.targets|) + [status.View()])
      ensures !status.inProgress
      ensures old(status.View()) == StatusView(jobId, 0, 0, 0, false, []) ==>
                && status.completed + status.failed == status.total
                && |status.screenshots| == status.completed
    {
      status.inProgress := true;
      Emit();
      if mkdirOk {
        var urls := if |customUrls| > 0 then customUrls else Config.AllUrls(table);
        var targets := SlicePrefix(urls, count);
        status.total := |targets|;
        var job := Job(jobId, apiKey, table, targets, inputs, hostOf);
        ghost var v1 := status.View();
        RunTargets(job);
        AfterCounts(job, v1, |targets|);
        if saveOk {
          metadataJson := Some(status.screenshots);
        }
      }
      status.inProgress := false;
      Emit();
    }

    /** The loop of `startCollection`: each target in index order, one at a time, with an
        emission after each. */
    method RunTargets(job: Job)
      requires job.jobId == jobId && job.apiKey == apiKey
      modifies this`emitted, this`files, status
      ensures status.View() == After(job, old(status.View()), |job.targets|)
      ensures files == Files(job, old(files), |job.targets|)
      ensures emitted == old(emitted) + Emits(job, old(status.View()), |job.targets|)
    {
      ghost var v1 := status.View();
      for i := 0 to |job.targets|
        invariant status.View() == After(job, v1, i)
        invariant files == Files(job, old(files), i)
        invariant emitted == old(emitted) + Emits(job, v1, i)
      {
        ProcessUrl(job.table, job.targets[i], i, job.inputs(i), job.hostOf);
        Emit();
      }
    }
  }
}
