/** The browser-driven website collector (src/collector.ts): a retry loop around each capture,
    tasks admitted by a concurrency limiter, shared progress counters, an in-memory metadata
    list, the metadata file and the fine-tuning export.

    The limiter is modelled by its effect: a run of the collection is a sequence of atomic
    `Start(i)` / `Finish(i)` steps (JavaScript runs each task to its next `await` without
    interruption), and the limiter's own guarantee - first-in first-out admission, at most
    `Config.Concurrency` tasks running, every task settling - is the precondition
    `Completes` on that sequence. */
module Collector {
  import opened Common
  import opened Types
  import Config
  import Screenshot

  /** The `progress` object: target count and the completed, failed and running tasks. */
  datatype Progress = Progress(total: int, completed: int, failed: int, inProgress: int)

  // ---------------------------------------------------------------------------
  // retry(fn, attempts)

  /** How a call of `retry` settles: it returns a value (or `null`), or rethrows. */
  datatype Retried<T> = Returned(value: Option<T>) | Rethrown(thrown: Thrown)

  /** A finished `retry`: how it settled, how many times it called `fn`, and the waits it
      made between calls, in milliseconds. */
  datatype RetryRun<T> = RetryRun(result: Retried<T>, calls: nat, waits: seq<int>)

  /** `retry` from attempt `i` on, where `f(k)` is how the `k`-th call of `fn` settles. */
  function RetryFrom<T>(f: nat -> Outcome<T>, attempts: int, delay: int, i: nat): (r: RetryRun<T>)
    ensures i >= attempts ==> r == RetryRun(Returned(None), 0, [])
    ensures i < attempts && f(i).Ok? ==> r == RetryRun(Returned(Some(f(i).value)), 1, [])
    ensures r.calls <= Max(attempts - i, 0)
    decreases attempts - i
  {
    if i >= attempts then RetryRun(Returned(None), 0, [])
    else
      match f(i)
      case Ok(v) => RetryRun(Returned(Some(v)), 1, [])
      case Threw(e) =>
        if i == attempts - 1 then RetryRun(Rethrown(e), 1, [])
        else
          var rest := RetryFrom(f, attempts, delay, i + 1);
          RetryRun(rest.result, rest.calls + 1, [delay * (i + 1)] + rest.waits)
  }

  /** `retry` returns `null` only when no attempt is left; otherwise it calls `fn` at least
      once and at most once per remaining attempt, waits `delay * (k + 1)` before call
      `k + 2`, every call but the last threw, a value is what the last call returned, and
      a rethrown error is the one the last allowed call threw. */
  lemma {:induction false} RetryFromSpec<T>(f: nat -> Outcome<T>, attempts: int, delay: int, i: nat)
    ensures var r := RetryFrom(f, attempts, delay, i);
            && (r.result == Returned(None) <==> i >= attempts)
            && (i >= attempts ==> r.calls == 0 && r.waits == [])
            && (i < attempts ==> 1 <= r.calls <= attempts - i)
            && |r.waits| == Max(r.calls - 1, 0)
            && (forall k :: 0 <= k < |r.waits| ==> r.waits[k] == delay * (i + k + 1))
            && (forall j :: i <= j < i + r.calls - 1 ==> f(j).Threw?)
            && (r.result.Returned? && r.result.value.Some? ==>
                  f(i + r.calls - 1) == Ok(r.result.value.value))
            && (r.result.Rethrown? ==>
                  i + r.calls == attempts && f(attempts - 1) == Threw(r.result.thrown))
    decreases attempts - i
  {
    if i < attempts - 1 && f(i).Threw? {
      var r := RetryFrom(f, attempts, delay, i);
      var rest := RetryFrom(f, attempts, delay, i + 1);
      RetryFromSpec(f, attempts, delay, i + 1);
      assert r == RetryRun(rest.result, rest.calls + 1, [delay * (i + 1)] + rest.waits);
      forall k | 0 <= k < |r.waits|
        ensures r.waits[k] == delay * (i + k + 1)
      {
        if k > 0 {
          assert r.waits[k] == rest.waits[k - 1];
        }
      }
      forall j | i <= j < i + r.calls - 1
        ensures f(j).Threw?
      {
        if j > i {
          assert i + 1 <= j < i + 1 + rest.calls - 1;
        }
      }
    }
  }

  /** The run from attempt `i` on, seen from attempt 0 when the first `i` calls threw. */
  function Resume<T>(i: nat, waits: seq<int>, r: RetryRun<T>): RetryRun<T> {
    RetryRun(r.result, r.calls + i, waits + r.waits)
  }

  /** After a call that throws and is not the last, the run continues from the next attempt
      after one more wait. */
  lemma ResumeStep<T>(f: nat -> Outcome<T>, attempts: int, delay: int, i: nat, waits: seq<int>)
    requires i + 1 < attempts && f(i).Threw?
    ensures Resume(i, waits, RetryFrom(f, attempts, delay, i))
              == Resume(i + 1, waits + [delay * (i + 1)], RetryFrom(f, attempts, delay, i + 1))
  {
    var rest := RetryFrom(f, attempts, delay, i + 1);
    assert waits + ([delay * (i + 1)] + rest.waits) == waits + [delay * (i + 1)] + rest.waits;
  }

  /** `retry(fn, attempts)`: calls `fn` until it settles without throwing; a throw on the
      last attempt is rethrown; before attempt `i + 2` it waits `delay * (i + 1)`. */
  method Retry<T>(f: nat -> Outcome<T>, attempts: int, delay: int) returns (run: RetryRun<T>)
    ensures run == RetryFrom(f, attempts, delay, 0)
  {
    var i: nat := 0;
    var waits: seq<int> := [];
    while i < attempts
      invariant i == 0 || i < attempts
      invariant Resume(i, waits, RetryFrom(f, attempts, delay, i)) == RetryFrom(f, attempts, delay, 0)
      decreases attempts - i
    {
      match f(i) {
        case Ok(v) =>
          assert waits + [] == waits;
          return RetryRun(Returned(Some(v)), i + 1, waits);
        case Threw(e) =>
          if i == attempts - 1 {
            assert waits + [] == waits;
            return RetryRun(Rethrown(e), i + 1, waits);
          }
          ResumeStep(f, attempts, delay, i, waits);
          waits := waits + [delay * (i + 1)];
      }
      i := i + 1;
    }
    run := RetryRun(Returned(None), i, waits);
  }

  /** With the configured policy, a capture that throws every time is called three times,
      with waits of one and two seconds in between, and its last error is rethrown. */
  lemma RetryPolicyOnPersistentFailure(f: nat -> Outcome<Metadata>, e: Thrown)
    requires forall k :: f(k) == Threw(e)
    ensures RetryFrom(f, Config.RetryAttempts, Config.RetryDelay, 0)
              == RetryRun(Rethrown(e), 3, [1000, 2000])
  {
    assert f(0) == Threw(e) && f(1) == Threw(e) && f(2) == Threw(e);
  }

  // ---------------------------------------------------------------------------
  // The limiter's schedule.

  datatype Event = Start(task: nat) | Finish(task: nat)
  datatype Phase = Queued | Running | Settled

  function Count(ps: seq<Phase>, p: Phase): nat
    ensures Count(ps, p) <= |ps|
    decreases |ps|
  {
    if |ps| == 0 then 0 else (if ps[0] == p then 1 else 0) + Count(ps[1..], p)
  }

  /** Changing one task's phase moves it from one count to another. */
  lemma {:induction false} CountUpdate(ps: seq<Phase>, i: nat, q: Phase, p: Phase)
    requires i < |ps|
    ensures Count(ps[i := q], p)
              == Count(ps, p) - (if ps[i] == p then 1 else 0) + (if q == p then 1 else 0)
    decreases |ps|
  {
    if i > 0 {
      assert ps[i := q][1..] == ps[1..][i - 1 := q];
      CountUpdate(ps[1..], i - 1, q, p);
    } else {
      assert ps[i := q][1..] == ps[1..];
    }
  }

  /** Every task is in exactly one phase. */
  lemma {:induction false} CountTotal(ps: seq<Phase>)
    ensures Count(ps, Queued) + Count(ps, Running) + Count(ps, Settled) == |ps|
    decreases |ps|
  {
    if |ps| > 0 {
      CountTotal(ps[1..]);
    }
  }

  lemma {:induction false} CountUniform(ps: seq<Phase>, p: Phase)
    requires forall k :: 0 <= k < |ps| ==> ps[k] == p
    ensures Count(ps, p) == |ps|
    decreases |ps|
  {
    if |ps| > 0 {
      CountUniform(ps[1..], p);
    }
  }

  /** A step the limiter can take: it admits the first queued task while fewer than `limit`
      tasks run, or a running task settles. */
  ghost predicate Enabled(ps: seq<Phase>, e: Event, limit: nat) {
    match e
    case Start(i) =>
      && i < |ps| && ps[i] == Queued
      && (forall j :: 0 <= j < i ==> ps[j] != Queued)
      && Count(ps, Running) < limit
    case Finish(i) => i < |ps| && ps[i] == Running
  }

  function Apply(ps: seq<Phase>, e: Event): seq<Phase>
    requires e.task < |ps|
  {
    ps[e.task := if e.Start? then Running else Settled]
  }

  /** `events` is a complete run of the limiter from phases `ps`: every step is enabled and
      every task has settled at the end (`Promise.all`). */
  ghost predicate Completes(ps: seq<Phase>, events: seq<Event>, limit: nat)
    decreases |events|
  {
    if |events| == 0 then forall k :: 0 <= k < |ps| ==> ps[k] == Settled
    else Enabled(ps, events[0], limit) && Completes(Apply(ps, events[0]), events[1..], limit)
  }

  /** Each step moves one task one phase on: an admission adds a running task, a settling
      moves a running task to the settled ones, and the limit on running tasks holds. */
  lemma LimiterStep(ps: seq<Phase>, e: Event, limit: nat)
    requires Enabled(ps, e, limit) && Count(ps, Running) <= limit
    ensures e.task < |ps| && |Apply(ps, e)| == |ps|
    ensures Count(Apply(ps, e), Running) == Count(ps, Running) + (if e.Start? then 1 else -1)
    ensures Count(Apply(ps, e), Settled) == Count(ps, Settled) + (if e.Finish? then 1 else 0)
    ensures Count(Apply(ps, e), Running) <= limit
  {
    CountUpdate(ps, e.task, if e.Start? then Running else Settled, Running);
    CountUpdate(ps, e.task, if e.Start? then Running else Settled, Settled);
  }

  /** The number of admissions (`start`) or settlings (`!start`) among `events`. */
  function Steps(events: seq<Event>, start: bool): nat
    decreases |events|
  {
    if |events| == 0 then 0
    else Steps(events[..|events| - 1], start) + (if events[|events| - 1].Start? == start then 1 else 0)
  }

  lemma {:induction false} StepsCons(e: Event, rest: seq<Event>, start: bool)
    ensures Steps([e] + rest, start) == (if e.Start? == start then 1 else 0) + Steps(rest, start)
    decreases |rest|
  {
    if |rest| > 0 {
      var last := |rest| - 1;
      assert ([e] + rest)[..|[e] + rest| - 1] == [e] + rest[..last];
      StepsCons(e, rest[..last], start);
    } else {
      assert [e] + rest == [e];
    }
  }

  /** Counting over two runs one after the other adds up. */
  lemma {:induction false} StepsAppend(a: seq<Event>, b: seq<Event>, start: bool)
    ensures Steps(a + b, start) == Steps(a, start) + Steps(b, start)
    decreases |b|
  {
    if |b| > 0 {
      assert (a + b)[..|a + b| - 1] == a + b[..|b| - 1];
      StepsAppend(a, b[..|b| - 1], start);
    } else {
      assert a + b == a;
    }
  }

  /** A prefix of a run admits and settles no more tasks than the whole run. */
  lemma StepsPrefix(events: seq<Event>, k: nat, start: bool)
    requires k <= |events|
    ensures Steps(events[..k], start) <= Steps(events, start)
  {
    assert events[..k] + events[k..] == events;
    StepsAppend(events[..k], events[k..], start);
  }

  /** A complete run admits every queued task once and settles every queued or running
      task once, and names only existing tasks. */
  lemma {:induction false} CompletesCounts(ps: seq<Phase>, events: seq<Event>, limit: nat)
    requires Completes(ps, events, limit)
    ensures Steps(events, true) == Count(ps, Queued)
    ensures Steps(events, false) == Count(ps, Queued) + Count(ps, Running)
    ensures forall k :: 0 <= k < |events| ==> events[k].task < |ps|
    decreases |events|
  {
    if |events| == 0 {
      CountUniform(ps, Settled);
      CountTotal(ps);
    } else {
      var e, rest := events[0], events[1..];
      var ps' := Apply(ps, e);
      CompletesCounts(ps', rest, limit);
      CountUpdate(ps, e.task, if e.Start? then Running else Settled, Queued);
      CountUpdate(ps, e.task, if e.Start? then Running else Settled, Running);
      assert events == [e] + rest;
      StepsCons(e, rest, true);
      StepsCons(e, rest, false);
      forall k | 0 <= k < |events|
        ensures events[k].task < |ps|
      {
        if k > 0 {
          assert events[k] == rest[k - 1];
        }
      }
    }
  }

  function AllQueued(n: nat): seq<Phase> {
    seq(n, _ => Queued)
  }

  // ---------------------------------------------------------------------------
  // What the tasks produce.

  /** `limit ? urls.slice(0, limit) : urls` over the flattened category table. */
  function Targets(table: Config.Table, limit: Option<int>): (r: seq<string>)
    ensures limit.Some? && limit.value > 0 ==>
              |r| == Min(limit.value, |Config.AllUrls(table)|)
    ensures limit.None? || limit.value == 0 ==> r == Config.AllUrls(table)
    ensures r <= Config.AllUrls(table)
  {
    var urls := Config.AllUrls(table);
    if limit.Some? && limit.value != 0 then SlicePrefix(urls, limit.value) else urls
  }

  /** How the `k`-th call of `captureScreenshot` for task `task` settles. */
  function Attempts(ready: bool, url: string, category: string,
                    inputs: (nat, nat) -> Screenshot.CaptureInput, task: nat): nat -> Outcome<Metadata>
  {
    (k: nat) => Screenshot.CaptureSpec(ready, url, category, inputs(task, k))
  }

  /** How each task's `retry` settles. */
  function TaskResults(ready: bool, table: Config.Table, targets: seq<string>,
                       inputs: (nat, nat) -> Screenshot.CaptureInput): (r: seq<Retried<Metadata>>)
    ensures |r| == |targets|
  {
    seq(|targets|, i requires 0 <= i < |targets| =>
      RetryFrom(Attempts(ready, targets[i], Config.CategoryLabel(table, targets[i]), inputs, i),
                Config.RetryAttempts, Config.RetryDelay, 0).result)
  }

  /** `results` are the settled `retry` calls of the tasks over `targets`. */
  ghost predicate ResultsOf(results: seq<Retried<Metadata>>, ready: bool, table: Config.Table,
                            targets: seq<string>, inputs: (nat, nat) -> Screenshot.CaptureInput) {
    results == TaskResults(ready, table, targets, inputs)
  }

  /** `result && !result.error`: a record came back and its error is unset or empty. */
  predicate Kept(r: Retried<Metadata>) {
    r.Returned? && r.value.Some? && !Truthy(r.value.value.error)
  }

  /** The record one step appends to `metadata`. */
  function Gain(e: Event, results: seq<Retried<Metadata>>): seq<Metadata> {
    if e.Finish? && e.task < |results| && Kept(results[e.task]) then [results[e.task].value.value] else []
  }

  /** The records appended during `events`, in the order the tasks settle. */
  function Harvest(events: seq<Event>, results: seq<Retried<Metadata>>): seq<Metadata>
    decreases |events|
  {
    if |events| == 0 then []
    else Harvest(events[..|events| - 1], results) + Gain(events[|events| - 1], results)
  }

  /** Extending a prefix of a run by one step extends what it harvested and counted. */
  lemma PrefixSnoc(events: seq<Event>, k: nat, results: seq<Retried<Metadata>>)
    requires k < |events|
    ensures Harvest(events[..k + 1], results) == Harvest(events[..k], results) + Gain(events[k], results)
    ensures Steps(events[..k + 1], true) == Steps(events[..k], true) + (if events[k].Start? then 1 else 0)
    ensures Steps(events[..k + 1], false) == Steps(events[..k], false) + (if events[k].Start? then 0 else 1)
  {
    assert events[..k + 1][..k] == events[..k];
  }

  /** Every harvested record has no error. */
  lemma {:induction false} HarvestUsable(events: seq<Event>, results: seq<Retried<Metadata>>)
    ensures forall k :: 0 <= k < |Harvest(events, results)| ==> Usable(Harvest(events, results)[k])
    decreases |events|
  {
    if |events| > 0 {
      HarvestUsable(events[..|events| - 1], results);
    }
  }

  // ---------------------------------------------------------------------------
  // The metadata file and the export.

  /** `!m.error` */
  predicate Usable(m: Metadata) {
    !Truthy(m.error)
  }

  /** `metadata.filter(m => !m.error)` */
  function UsableRecords(ms: seq<Metadata>): (r: seq<Metadata>)
    ensures |r| <= |ms|
    ensures forall k :: 0 <= k < |r| ==> Usable(r[k]) && r[k] in ms
    decreases |ms|
  {
    if |ms| == 0 then []
    else if Usable(ms[0]) then [ms[0]] + UsableRecords(ms[1..])
    else UsableRecords(ms[1..])
  }

  /** Filtering distributes over appending, so records keep their list order. */
  lemma {:induction false} UsableRecordsAppend(a: seq<Metadata>, b: seq<Metadata>)
    ensures UsableRecords(a + b) == UsableRecords(a) + UsableRecords(b)
    decreases |a|
  {
    if |a| > 0 {
      assert (a + b)[1..] == a[1..] + b;
      UsableRecordsAppend(a[1..], b);
    } else {
      assert a + b == b;
    }
  }

  /** A list of error-free records passes the filter unchanged. */
  lemma {:induction false} UsableRecordsKeepAll(ms: seq<Metadata>)
    requires forall k :: 0 <= k < |ms| ==> Usable(ms[k])
    ensures UsableRecords(ms) == ms
    decreases |ms|
  {
    if |ms| > 0 {
      UsableRecordsKeepAll(ms[1..]);
    }
  }

  /** One training example: the image it points at and the fields its answer is built from
      (the fixed prompt texts are not modelled). */
  datatype TrainingExample = TrainingExample(
    imageUrl: string,
    category: string,
    title: Option<string>,
    elements: Option<Elements>,
    description: string)

  /** The example for one stored record, whose image file is `screenshots/<filename>`. */
  function ExampleFor(m: Metadata): (x: TrainingExample)
    requires m.screenshot.Some?
    ensures x.imageUrl == "file://screenshots/" + m.screenshot.value.filename
    ensures x.category == m.category && x.title == m.title && x.elements == m.elements
    ensures x.description == if Truthy(m.description) then m.description.value else "a web interface"
  {
    TrainingExample(
      "file://screenshots/" + m.screenshot.value.filename,
      m.category, m.title, m.elements,
      if Truthy(m.description) then m.description.value else "a web interface")
  }

  predicate HasImage(m: Metadata) {
    m.screenshot.Some?
  }

  /** The loop of `exportForFineTuning`: the example of each record in turn, stopping at the
      first record without an image. */
  method Examples(valid: seq<Metadata>) returns (data: seq<TrainingExample>, complete: bool)
    ensures complete <==> forall k :: 0 <= k < |valid| ==> HasImage(valid[k])
    ensures complete ==> |data| == |valid| && forall k :: 0 <= k < |valid| ==> data[k] == ExampleFor(valid[k])
  {
    data := [];
    for i := 0 to |valid|
      invariant |data| == i
      invariant forall k :: 0 <= k < i ==> HasImage(valid[k]) && data[k] == ExampleFor(valid[k])
    {
      if valid[i].screenshot.None? {
        assert !HasImage(valid[i]);
        return data, false;
      }
      data := data + [ExampleFor(valid[i])];
    }
    complete := true;
  }

  class WebsiteCollector {
    const capture: Screenshot.ScreenshotCapture
    var progress: Progress
    var metadata: seq<Metadata>
    /** The lines of `data/metadata.jsonl`, one record each. */
    var metadataFile: seq<Metadata>
    /** The lines of `data/finetuning_data.jsonl`, one example each. */
    var exportFile: seq<TrainingExample>

    constructor()
      ensures fresh(capture) && !capture.browserReady
      ensures progress == Progress(0, 0, 0, 0) && metadata == []
      ensures metadataFile == [] && exportFile == []
    {
      capture := new Screenshot.ScreenshotCapture();
      progress := Progress(0, 0, 0, 0);
      metadata := [];
      metadataFile := [];
      exportFile := [];
    }

    /** Launches the browser (the output directories are not modelled). */
    method Initialize(launched: bool)
      modifies capture`browserReady
      ensures capture.browserReady == (old(capture.browserReady) || launched)
    {
      capture.Initialize(launched);
    }

    /** `collectAll(limit)` over the run `events` of the limiter. `inputs(i, k)` is what the
        `k`-th capture attempt of target `i` meets, and `write` how the metadata write
        settles; `rejected` is what the call rejects with. */
    method CollectAll(table: Config.Table, limit: Option<int>,
                      inputs: (nat, nat) -> Screenshot.CaptureInput, events: seq<Event>,
                      write: Option<Thrown>)
      returns (rejected: Option<Thrown>)
      requires Completes(AllQueued(|Targets(table, limit)|), events, Config.Concurrency)
      modifies this`progress, this`metadata, this`metadataFile
      ensures var kept := Harvest(events,
                TaskResults(capture.browserReady, table, Targets(table, limit), inputs));
              && progress.total == |Targets(table, limit)|
              && metadata == old(metadata) + kept
              && progress.completed == old(progress.completed) + |kept|
              && progress.completed + progress.failed
                   == old(progress.completed) + old(progress.failed) + progress.total
              && progress.inProgress == old(progress.inProgress)
      ensures rejected == write
      ensures write.None? ==> metadataFile == UsableRecords(metadata)
      ensures write.Some? ==> metadataFile == old(metadataFile)
      ensures old(progress) == Progress(0, 0, 0, 0) && old(metadata) == [] ==>
                && progress.completed + progress.failed == progress.total
                && progress.inProgress == 0
                && |metadata| == progress.completed
                && (write.None? ==> metadataFile == metadata)
    {
      var targets := Targets(table, limit);
      progress := progress.(total := |targets|);
      var ready := capture.browserReady;
      ghost var results := TaskResults(ready, table, targets, inputs);
      CountUniform(AllQueued(|targets|), Queued);
      CountTotal(AllQueued(|targets|));
      CompletesCounts(AllQueued(|targets|), events, Config.Concurrency);
      RunEvents(table, targets, ready, inputs, events, results);
      HarvestUsable(events, results);
      rejected := SaveMetadata(write);
      if old(metadata) == [] {
        UsableRecordsKeepAll(metadata);
      }
    }

    /** The body of `Promise.all(tasks)`: the steps of `events`, one after another. */
    method RunEvents(table: Config.Table, targets: seq<string>, ready: bool,
                     inputs: (nat, nat) -> Screenshot.CaptureInput, events: seq<Event>,
                     ghost results: seq<Retried<Metadata>>)
      requires forall k :: 0 <= k < |events| ==> events[k].task < |targets|
      requires Steps(events, true) == Steps(events, false) == |targets|
      requires ResultsOf(results, ready, table, targets, inputs)
      modifies this`progress, this`metadata
      ensures metadata == old(metadata) + Harvest(events, results)
      ensures progress.total == old(progress.total)
      ensures progress.completed == old(progress.completed) + |Harvest(events, results)|
      ensures progress.completed + progress.failed
                == old(progress.completed) + old(progress.failed) + |targets|
      ensures progress.inProgress == old(progress.inProgress)
    {
      ghost var p0 := progress;
      ghost var m0 := metadata;
      var k := 0;
      while k < |events|
        invariant 0 <= k <= |events|
        invariant progress.total == p0.total
        invariant progress.inProgress == p0.inProgress + Steps(events[..k], true) - Steps(events[..k], false)
        invariant progress.completed + progress.failed == p0.completed + p0.failed + Steps(events[..k], false)
        invariant metadata == m0 + Harvest(events[..k], results)
        invariant progress.completed == p0.completed + |Harvest(events[..k], results)|
        // The progress bound that holds at every step of the run, not only at its end:
        // finished and running captures together never grow past the number of targets.
        invariant progress.completed + progress.failed + progress.inProgress
                    <= p0.completed + p0.failed + p0.inProgress + |targets|
      {
        ghost var before := Harvest(events[..k], results);
        PrefixSnoc(events, k, results);
        RunStep(table, targets, ready, inputs, events[k], results);
        assert metadata == m0 + (before + Gain(events[k], results));
        StepsPrefix(events, k + 1, true);
        k := k + 1;
      }
      assert events[..k] == events;
    }

    /** One step of the run: a task enters (`inProgress++`) or runs its `retry` to the end
        and settles. */
    method RunStep(table: Config.Table, targets: seq<string>, ready: bool,
                   inputs: (nat, nat) -> Screenshot.CaptureInput, e: Event,
                   ghost results: seq<Retried<Metadata>>)
      requires e.task < |targets|
      requires ResultsOf(results, ready, table, targets, inputs)
      modifies this`progress, this`metadata
      ensures metadata == old(metadata) + Gain(e, results)
      ensures e.Start? ==> progress == old(progress).(inProgress := old(progress).inProgress + 1)
      ensures e.Finish? ==> progress == old(progress).(
                completed := old(progress).completed + |Gain(e, results)|,
                failed := old(progress).failed + 1 - |Gain(e, results)|,
                inProgress := old(progress).inProgress - 1)
    {
      match e {
        case Start(i) =>
          Admit();
        case Finish(i) =>
          var category := Config.CategoryLabel(table, targets[i]);
          var run := Retry(Attempts(ready, targets[i], category, inputs, i),
                           Config.RetryAttempts, Config.RetryDelay);
          assert run.result == results[i];
          Settle(run.result);
      }
    }

    /** A task's entry: `progress.inProgress++`. */
    method Admit()
      modifies this`progress
      ensures progress == old(progress).(inProgress := old(progress).inProgress + 1)
    {
      progress := progress.(inProgress := progress.inProgress + 1);
    }

    /** A task's end: a kept record is appended and counted as completed, anything else
        (an error record, `null`, a rethrown error) is counted as failed; in every case
        `progress.inProgress--` runs in `finally`. */
    method Settle(result: Retried<Metadata>)
      modifies this`progress, this`metadata
      ensures metadata == old(metadata) + (if Kept(result) then [result.value.value] else [])
      ensures progress == old(progress).(
                completed := old(progress).completed + (if Kept(result) then 1 else 0),
                failed := old(progress).failed + (if Kept(result) then 0 else 1),
                inProgress := old(progress).inProgress - 1)
    {
      if result.Returned? && result.value.Some? && !Truthy(result.value.value.error) {
        metadata := metadata + [result.value.value];
        progress := progress.(completed := progress.completed + 1);
      } else {
        progress := progress.(failed := progress.failed + 1);
      }
      progress := progress.(inProgress := progress.inProgress - 1);
    }

    /** `saveMetadata()`: writes the error-free records, one per line, in list order, when
        the write (settling as `write` says) goes through; a rejected write is passed on. */
    method SaveMetadata(write: Option<Thrown>) returns (rejected: Option<Thrown>)
      modifies this`metadataFile
      ensures rejected == write
      ensures write.None? ==> metadataFile == UsableRecords(metadata)
      ensures write.Some? ==> metadataFile == old(metadataFile)
    {
      rejected := write;
      if write.None? {
        metadataFile := UsableRecords(metadata);
      }
    }

    /** `getProgress()`: a copy of the counters; as a value it cannot follow later updates. */
    method GetProgress() returns (p: Progress)
      ensures p == progress
    {
      p := progress;
    }

    /** `exportForFineTuning()`: one example per error-free record, in order. Reading the file
        name of a record without an image throws before anything is written, and the write
        itself settles as `write` says; `written` is false exactly when the call rejects. */
    method ExportForFineTuning(write: Option<Thrown>) returns (written: bool)
      modifies this`exportFile
      ensures var valid := UsableRecords(metadata);
              written <==> (forall k :: 0 <= k < |valid| ==> HasImage(valid[k])) && write.None?
      ensures var valid := UsableRecords(metadata);
              written ==> |exportFile| == |valid|
                          && forall k :: 0 <= k < |valid| ==> exportFile[k] == ExampleFor(valid[k])
      ensures !written ==> exportFile == old(exportFile)
    {
      var valid := UsableRecords(metadata);
      var data;
      data, written := Examples(valid);
      written := written && write.None?;
      if written {
        exportFile := data;
      }
      assert valid == UsableRecords(metadata);
    }
  }
}
