/** The headless-browser collector (src/collect-puppeteer.ts): `processWebsite` opens a page,
    captures it and, when a step inside its `try` throws, retries itself with the next
    attempt number after a fixed wait; `collectScreenshots` pairs the table's URLs with
    their categories, reorders them, launches the browser, runs the first `targetCount`
    pairs and writes the records that came back. The browser is a script of what each
    attempt meets. */
module CollectPuppeteer {
  import opened Common
  import opened Types
  import Config
  import CollectApi

  const ScreenshotWidth: int := 1024
  const ScreenshotHeight: int := 768
  /** Attempts per site, counted from 1, and the fixed wait before a retry in milliseconds. */
  const RetryAttempts: int := 3
  const RetryDelay: int := 2000

  /** The record this collector writes per site. */
  datatype PageRecord = PageRecord(
    id: string,
    url: string,
    title: string,
    category: string,
    screenshotFilename: string,
    viewport: Viewport,
    timestamp: string,
    pageType: string,
    hasForms: bool,
    hasButtons: bool,
    hasLinks: bool,
    textSample: string)

  /** What one attempt meets: whether `browser.newPage()` rejects, whether a step inside the
      `try` throws, whether the `page.close()` of its `finally` rejects, the fresh id and
      timestamp, and what the page reports about itself (`documentTitle` is
      `document.title`, possibly empty). */
  datatype Attempt = Attempt(
    newPage: Option<Thrown>,
    fails: bool,
    close: Option<Thrown>,
    id: string,
    timestamp: string,
    documentTitle: string,
    pageType: string,
    hasForm: bool,
    hasButtons: bool,
    hasLinks: bool,
    textSample: string)

  /** How `processWebsite` settles (a record, `null`, or a rejection), how many pages it
      opened (each closed again in `finally`), and the retry waits it made. */
  datatype Run = Run(result: Outcome<Option<PageRecord>>, pagesOpened: nat, waits: seq<int>)

  /** The record an attempt whose steps all succeed returns. */
  function RecordOf(url: string, category: string, a: Attempt): (r: PageRecord)
    ensures r.id == a.id && r.url == url && r.category == category
    ensures r.screenshotFilename == a.id + ".jpg"
    ensures r.viewport == Viewport(ScreenshotWidth, ScreenshotHeight)
    ensures r.title != "" && (a.documentTitle != "" ==> r.title == a.documentTitle)
  {
    PageRecord(a.id, url,
               if a.documentTitle != "" then a.documentTitle else "Untitled",
               category, a.id + ".jpg", Viewport(ScreenshotWidth, ScreenshotHeight),
               a.timestamp, a.pageType, a.hasForm, a.hasButtons, a.hasLinks, a.textSample)
  }

  function AttemptsLeft(attempt: nat): nat {
    if attempt < RetryAttempts then RetryAttempts - attempt else 0
  }

  /** `processWebsite(browser, url, category, attempt)`, where `tries(n)` is what attempt `n`
      meets. A rejection of `newPage` happens before the `try` and propagates; a failure
      inside it is retried while `attempt < RetryAttempts`, and `null` is returned after the
      last. The retry is returned from the `catch` without being awaited, so this attempt's
      `finally` closes its page as soon as the retry has started. A rejecting close
      replaces the outcome; otherwise the call settles as the retry does. */
  function ProcessWebsite(url: string, category: string, attempt: nat, tries: nat -> Attempt): (r: Run)
    ensures r.pagesOpened == 0 <==> tries(attempt).newPage.Some?
    ensures tries(attempt).newPage.None? && tries(attempt).close.Some? ==>
              r.result == Threw(tries(attempt).close.value)
    decreases AttemptsLeft(attempt)
  {
    var a := tries(attempt);
    if a.newPage.Some? then Run(Threw(a.newPage.value), 0, [])
    else
      var settled :=
        if !a.fails then Run(Ok(Some(RecordOf(url, category, a))), 1, [])
        else if attempt < RetryAttempts then
          var rest := ProcessWebsite(url, category, attempt + 1, tries);
          Run(rest.result, rest.pagesOpened + 1, [RetryDelay] + rest.waits)
        else Run(Ok(None), 1, []);
      if a.close.Some? then settled.(result := Threw(a.close.value)) else settled
  }

  /** The pages of attempts `attempt .. attempt + count - 1` all closed without rejecting. */
  predicate ClosesResolve(tries: nat -> Attempt, attempt: nat, count: nat) {
    forall n :: attempt <= n < attempt + count ==> tries(n).close.None?
  }

  /** Attempt `n` is the first from `attempt` on whose page close rejects. */
  predicate FirstCloseFailure(tries: nat -> Attempt, attempt: nat, n: nat) {
    attempt <= n && tries(n).close.Some? && ClosesResolve(tries, attempt, n - attempt)
  }

  /** The pages of a run of attempts close cleanly exactly when the first one does and the
      pages of the rest do. */
  lemma ClosesResolveStep(tries: nat -> Attempt, attempt: nat, count: nat)
    requires count >= 1
    ensures ClosesResolve(tries, attempt, count) <==>
              (tries(attempt).close.None? && ClosesResolve(tries, attempt + 1, count - 1))
  {
  }

  /** At most one page per allowed attempt. When every page closes cleanly, a rejection comes
      from the `newPage` of the attempt after the last page opened, with one wait per page;
      a call that settles without rejecting had every page close cleanly, waited once per
      earlier page, and a record is the one the last page's attempt produced. */
  lemma ProcessWebsiteCounts(url: string, category: string, attempt: nat, tries: nat -> Attempt)
    ensures var r := ProcessWebsite(url, category, attempt, tries);
            && r.pagesOpened <= AttemptsLeft(attempt) + 1
            && (r.result.Threw? && ClosesResolve(tries, attempt, r.pagesOpened) ==>
                  && tries(attempt + r.pagesOpened).newPage.Some?
                  && r.result.thrown == tries(attempt + r.pagesOpened).newPage.value
                  && |r.waits| == r.pagesOpened)
            && (r.result.Ok? ==>
                  r.pagesOpened >= 1 && |r.waits| == r.pagesOpened - 1 && ClosesResolve(tries, attempt, r.pagesOpened))
            && (r.result.Ok? && r.result.value.Some? ==>
                  r.result.value.value == RecordOf(url, category, tries(attempt + r.pagesOpened - 1)))
  {
    ProcessWebsitePages(url, category, attempt, tries);
    ProcessWebsiteThrown(url, category, attempt, tries);
    ProcessWebsiteSettled(url, category, attempt, tries);
  }

  /** At most one page per allowed attempt. */
  lemma {:induction false} ProcessWebsitePages(url: string, category: string, attempt: nat, tries: nat -> Attempt)
    ensures ProcessWebsite(url, category, attempt, tries).pagesOpened <= AttemptsLeft(attempt) + 1
    decreases AttemptsLeft(attempt)
  {
    var a := tries(attempt);
    if a.newPage.None? && a.fails && attempt < RetryAttempts {
      ProcessWebsitePages(url, category, attempt + 1, tries);
    }
  }

  /** With every page closed cleanly, a rejection is the `newPage` of the attempt after the
      last page, with one wait per page. */
  lemma {:induction false} ProcessWebsiteThrown(url: string, category: string, attempt: nat, tries: nat -> Attempt)
    ensures var r := ProcessWebsite(url, category, attempt, tries);
            r.result.Threw? && ClosesResolve(tries, attempt, r.pagesOpened) ==>
              && tries(attempt + r.pagesOpened).newPage.Some?
              && r.result.thrown == tries(attempt + r.pagesOpened).newPage.value
              && |r.waits| == r.pagesOpened
    decreases AttemptsLeft(attempt)
  {
    var a := tries(attempt);
    var r := ProcessWebsite(url, category, attempt, tries);
    if a.newPage.Some? {
      assert r == Run(Threw(a.newPage.value), 0, []);
    } else if a.fails && attempt < RetryAttempts {
      var rest := ProcessWebsite(url, category, attempt + 1, tries);
      ProcessWebsiteThrown(url, category, attempt + 1, tries);
      assert r.pagesOpened == rest.pagesOpened + 1 && r.waits == [RetryDelay] + rest.waits;
      assert attempt + r.pagesOpened == attempt + 1 + rest.pagesOpened;
      ClosesResolveStep(tries, attempt, r.pagesOpened);
      if a.close.None? {
        assert r.result == rest.result;
      }
    } else {
      assert r.pagesOpened == 1;
      ClosesResolveStep(tries, attempt, 1);
    }
  }

  /** A call that does not reject had every page close cleanly and waited once per retry,
      and its record comes from the last page's attempt. */
  lemma {:induction false} ProcessWebsiteSettled(url: string, category: string, attempt: nat, tries: nat -> Attempt)
    ensures var r := ProcessWebsite(url, category, attempt, tries);
            && (r.result.Ok? ==>
                  r.pagesOpened >= 1 && |r.waits| == r.pagesOpened - 1 && ClosesResolve(tries, attempt, r.pagesOpened))
            && (r.result.Ok? && r.result.value.Some? ==>
                  r.result.value.value == RecordOf(url, category, tries(attempt + r.pagesOpened - 1)))
    decreases AttemptsLeft(attempt)
  {
    var a := tries(attempt);
    var r := ProcessWebsite(url, category, attempt, tries);
    if a.newPage.Some? {
      assert r.result.Threw?;
    } else if a.fails && attempt < RetryAttempts {
      var rest := ProcessWebsite(url, category, attempt + 1, tries);
      ProcessWebsiteSettled(url, category, attempt + 1, tries);
      assert r.pagesOpened == rest.pagesOpened + 1 && r.waits == [RetryDelay] + rest.waits;
      assert attempt + r.pagesOpened - 1 == attempt + 1 + rest.pagesOpened - 1;
      ClosesResolveStep(tries, attempt, r.pagesOpened);
      if a.close.None? {
        assert r.result == rest.result;
      }
    } else {
      assert r.pagesOpened == 1 && r.waits == [];
      ClosesResolveStep(tries, attempt, 1);
    }
  }

  /** A page close that rejects decides the call: the call rejects with the close error of
      the earliest attempt whose close rejects. */
  lemma {:induction false} ProcessWebsiteCloses(url: string, category: string, attempt: nat, n: nat,
                                                tries: nat -> Attempt)
    requires FirstCloseFailure(tries, attempt, n)
    requires n < attempt + ProcessWebsite(url, category, attempt, tries).pagesOpened
    ensures ProcessWebsite(url, category, attempt, tries).result == Threw(tries(n).close.value)
    decreases AttemptsLeft(attempt)
  {
    var a := tries(attempt);
    if n > attempt {
      assert a.close.None?;
      var rest := ProcessWebsite(url, category, attempt + 1, tries);
      assert a.newPage.None? && a.fails && attempt < RetryAttempts;
      assert FirstCloseFailure(tries, attempt + 1, n);
      ProcessWebsiteCloses(url, category, attempt + 1, n, tries);
    }
  }

  /** Every retry waits the same fixed delay. */
  lemma {:induction false} ProcessWebsiteWaits(url: string, category: string, attempt: nat, tries: nat -> Attempt)
    ensures forall k :: 0 <= k < |ProcessWebsite(url, category, attempt, tries).waits| ==>
              ProcessWebsite(url, category, attempt, tries).waits[k] == RetryDelay
    decreases AttemptsLeft(attempt)
  {
    var a := tries(attempt);
    if a.newPage.None? && a.fails && attempt < RetryAttempts {
      var rest := ProcessWebsite(url, category, attempt + 1, tries);
      ProcessWebsiteWaits(url, category, attempt + 1, tries);
      assert ProcessWebsite(url, category, attempt, tries).waits == [RetryDelay] + rest.waits;
    }
  }

  /** Every attempt before the last one that opened a page failed inside the `try`. */
  lemma {:induction false} ProcessWebsiteRetries(url: string, category: string, attempt: nat, tries: nat -> Attempt)
    ensures var r := ProcessWebsite(url, category, attempt, tries);
            forall n :: attempt <= n < attempt + r.pagesOpened - 1 ==> tries(n).fails
    decreases AttemptsLeft(attempt)
  {
    var a := tries(attempt);
    var r := ProcessWebsite(url, category, attempt, tries);
    if a.newPage.None? && a.fails && attempt < RetryAttempts {
      var rest := ProcessWebsite(url, category, attempt + 1, tries);
      ProcessWebsiteRetries(url, category, attempt + 1, tries);
      assert r.pagesOpened == rest.pagesOpened + 1;
      forall n | attempt <= n < attempt + r.pagesOpened - 1
        ensures tries(n).fails
      {
        if n > attempt {
          assert attempt + 1 <= n < attempt + 1 + rest.pagesOpened - 1;
        }
      }
    } else {
      assert r.pagesOpened <= 1;
    }
  }

  /** `null` comes back exactly when the last allowed attempt opened its page and failed
      inside the `try`, and every page closed without rejecting. */
  lemma {:induction false} ProcessWebsiteNull(url: string, category: string, attempt: nat, tries: nat -> Attempt)
    ensures var r := ProcessWebsite(url, category, attempt, tries);
            r.result == Ok(None) ==>
              r.pagesOpened == AttemptsLeft(attempt) + 1 && tries(attempt + r.pagesOpened - 1).fails
              && tries(attempt + r.pagesOpened - 1).newPage.None? && ClosesResolve(tries, attempt, r.pagesOpened)
    ensures var r := ProcessWebsite(url, category, attempt, tries);
            (r.pagesOpened == AttemptsLeft(attempt) + 1 && tries(attempt + r.pagesOpened - 1).fails
             && tries(attempt + r.pagesOpened - 1).newPage.None? && ClosesResolve(tries, attempt, r.pagesOpened))
            ==> r.result == Ok(None)
    decreases AttemptsLeft(attempt)
  {
    var a := tries(attempt);
    var r := ProcessWebsite(url, category, attempt, tries);
    if a.newPage.Some? {
      assert r.result.Threw?;
    } else if !a.fails {
      assert r.pagesOpened == 1;
      assert r.result.Threw? || r.result.value.Some?;
    } else if attempt < RetryAttempts {
      var rest := ProcessWebsite(url, category, attempt + 1, tries);
      ProcessWebsiteNull(url, category, attempt + 1, tries);
      assert r.pagesOpened == rest.pagesOpened + 1;
      assert attempt + r.pagesOpened - 1 == attempt + 1 + rest.pagesOpened - 1;
      assert AttemptsLeft(attempt) == AttemptsLeft(attempt + 1) + 1;
      ClosesResolveStep(tries, attempt, r.pagesOpened);
      if a.close.None? {
        assert r.result == rest.result;
      }
    } else {
      assert r.pagesOpened == 1 && AttemptsLeft(attempt) == 0;
      assert r.result == Ok(None) <==> ClosesResolve(tries, attempt, 1);
    }
  }

  /** From the default first attempt a site is driven through at most three pages, and the
      waits between them are all the same two seconds. */
  lemma AtMostThreePages(url: string, category: string, tries: nat -> Attempt)
    ensures ProcessWebsite(url, category, 1, tries).pagesOpened <= 3
    ensures forall w :: w in ProcessWebsite(url, category, 1, tries).waits ==> w == 2000
  {
    ProcessWebsiteCounts(url, category, 1, tries);
    ProcessWebsiteWaits(url, category, 1, tries);
  }

  /** A site whose every attempt fails in the `try`, and whose pages close cleanly, is tried
      three times and yields `null` after two waits. */
  lemma PersistentFailure(url: string, category: string, tries: nat -> Attempt)
    requires forall n :: tries(n).newPage.None? && tries(n).fails && tries(n).close.None?
    ensures ProcessWebsite(url, category, 1, tries) == Run(Ok(None), 3, [2000, 2000])
  {
    assert tries(1).fails && tries(2).fails && tries(3).fails;
  }

  // ---------------------------------------------------------------------------
  // collectScreenshots(targetCount)

  /** Task `i` of the batch: `processWebsite` from the first attempt, meeting `tries(i, n)`. */
  function TaskRun(tasks: seq<Config.Target>, i: nat, tries: (nat, nat) -> Attempt): Run
    requires i < |tasks|
  {
    ProcessWebsite(tasks[i].url, tasks[i].category, 1, (n: nat) => tries(i, n))
  }

  /** How `Promise.all(tasks)` settles when the tasks settle in the order `finish`: the
      records of the tasks that returned one, in that order, or the first rejection. */
  function Settle(tasks: seq<Config.Target>, finish: seq<nat>, tries: (nat, nat) -> Attempt)
    : (r: Outcome<seq<PageRecord>>)
    requires forall k :: 0 <= k < |finish| ==> finish[k] < |tasks|
    ensures |finish| == 0 ==> r == Ok([])
    ensures |finish| > 0 && TaskRun(tasks, finish[0], tries).result.Threw? ==>
              r == Threw(TaskRun(tasks, finish[0], tries).result.thrown)
    ensures r.Ok? ==> |r.value| <= |finish|
    decreases |finish|
  {
    if |finish| == 0 then Ok([])
    else
      var rest := Settle(tasks, finish[1..], tries);
      match TaskRun(tasks, finish[0], tries).result
      case Threw(e) => Threw(e)
      case Ok(None) => rest
      case Ok(Some(m)) => if rest.Ok? then Ok([m] + rest.value) else rest
  }

  /** The batch settles without rejection exactly when no task rejects; it then holds no more
      records than tasks settled, each named after its id. */
  lemma {:induction false} SettleSpec(tasks: seq<Config.Target>, finish: seq<nat>, tries: (nat, nat) -> Attempt)
    requires forall k :: 0 <= k < |finish| ==> finish[k] < |tasks|
    ensures var r := Settle(tasks, finish, tries);
            && (r.Ok? <==> forall k :: 0 <= k < |finish| ==> TaskRun(tasks, finish[k], tries).result.Ok?)
            && (r.Ok? ==> |r.value| <= |finish|)
            && (r.Ok? ==> forall k :: 0 <= k < |r.value| ==>
                  r.value[k].screenshotFilename == r.value[k].id + ".jpg")
    decreases |finish|
  {
    if |finish| > 0 {
      SettleSpec(tasks, finish[1..], tries);
      assert forall k :: 1 <= k < |finish| ==> finish[k] == finish[1..][k - 1];
    }
  }

  /** Every record of a resolved batch is the record some settled task returned. */
  lemma {:induction false} SettleKept(tasks: seq<Config.Target>, finish: seq<nat>, tries: (nat, nat) -> Attempt)
    requires forall k :: 0 <= k < |finish| ==> finish[k] < |tasks|
    ensures var r := Settle(tasks, finish, tries);
            r.Ok? ==> forall m :: m in r.value ==>
              exists k :: 0 <= k < |finish| && TaskRun(tasks, finish[k], tries).result == Ok(Some(m))
    decreases |finish|
  {
    var r := Settle(tasks, finish, tries);
    if |finish| > 0 && r.Ok? {
      var rest := Settle(tasks, finish[1..], tries);
      SettleKept(tasks, finish[1..], tries);
      var first := TaskRun(tasks, finish[0], tries).result;
      forall m | m in r.value
        ensures exists k :: 0 <= k < |finish| && TaskRun(tasks, finish[k], tries).result == Ok(Some(m))
      {
        if first == Ok(Some(m)) {
          assert TaskRun(tasks, finish[0], tries).result == Ok(Some(m));
        } else {
          assert rest.Ok? && m in rest.value;
          var k :| 0 <= k < |finish[1..]| && TaskRun(tasks, finish[1..][k], tries).result == Ok(Some(m));
          assert finish[1..][k] == finish[k + 1];
        }
      }
    }
  }

  /** Conversely, a resolved batch keeps the record of every task that returned one. */
  lemma {:induction false} SettleKeepsEvery(tasks: seq<Config.Target>, finish: seq<nat>, tries: (nat, nat) -> Attempt)
    requires forall k :: 0 <= k < |finish| ==> finish[k] < |tasks|
    ensures var r := Settle(tasks, finish, tries);
            r.Ok? ==> forall k :: 0 <= k < |finish| ==>
              var run := TaskRun(tasks, finish[k], tries).result;
              run.Ok? && run.value.Some? ==> run.value.value in r.value
    decreases |finish|
  {
    var r := Settle(tasks, finish, tries);
    if |finish| > 0 && r.Ok? {
      var rest := Settle(tasks, finish[1..], tries);
      SettleKeepsEvery(tasks, finish[1..], tries);
      forall k | 0 <= k < |finish|
        ensures var run := TaskRun(tasks, finish[k], tries).result;
                run.Ok? && run.value.Some? ==> run.value.value in r.value
      {
        if k > 0 {
          assert finish[1..][k - 1] == finish[k];
          assert rest.Ok?;
        }
      }
    }
  }

  /** A rejected batch rejects with the error of the first task, in settling order, that
      rejects; every task settled before it resolved. */
  lemma {:induction false} SettleRejects(tasks: seq<Config.Target>, finish: seq<nat>, tries: (nat, nat) -> Attempt)
    requires forall k :: 0 <= k < |finish| ==> finish[k] < |tasks|
    ensures var r := Settle(tasks, finish, tries);
            r.Threw? ==>
              exists k ::
                && 0 <= k < |finish|
                && TaskRun(tasks, finish[k], tries).result == Threw(r.thrown)
                && forall j :: 0 <= j < k ==> TaskRun(tasks, finish[j], tries).result.Ok?
    decreases |finish|
  {
    var r := Settle(tasks, finish, tries);
    if |finish| > 0 && r.Threw? {
      var first := TaskRun(tasks, finish[0], tries).result;
      if first.Threw? {
        assert TaskRun(tasks, finish[0], tries).result == Threw(r.thrown);
      } else {
        SettleRejects(tasks, finish[1..], tries);
        var k :| 0 <= k < |finish[1..]|
                 && TaskRun(tasks, finish[1..][k], tries).result == Threw(r.thrown)
                 && forall j :: 0 <= j < k ==> TaskRun(tasks, finish[1..][j], tries).result.Ok?;
        assert finish[1..][k] == finish[k + 1];
        forall j | 0 <= j < k + 1
          ensures TaskRun(tasks, finish[j], tries).result.Ok?
        {
          if j > 0 {
            assert finish[1..][j - 1] == finish[j];
          }
        }
      }
    }
  }

  /** The list pushed so far, followed by how the rest of the run settles. */
  function Prepend(done: seq<PageRecord>, r: Outcome<seq<PageRecord>>): Outcome<seq<PageRecord>> {
    match r
    case Ok(rest) => Ok(done + rest)
    case Threw(e) => Threw(e)
  }

  /** How the batch from its `k`-th settling task on settles, in terms of that task. */
  lemma SettleFrom(tasks: seq<Config.Target>, finish: seq<nat>, k: nat, tries: (nat, nat) -> Attempt)
    requires forall j :: 0 <= j < |finish| ==> finish[j] < |tasks|
    requires k < |finish|
    ensures var run := TaskRun(tasks, finish[k], tries);
            var rest := Settle(tasks, finish[k + 1..], tries);
            Settle(tasks, finish[k..], tries) ==
              if run.result.Threw? then Threw(run.result.thrown)
              else if run.result.value.None? then rest
              else Prepend([run.result.value.value], rest)
  {
    assert finish[k..][0] == finish[k] && finish[k..][1..] == finish[k + 1..];
  }

  lemma PrependPrepend(a: seq<PageRecord>, b: seq<PageRecord>, r: Outcome<seq<PageRecord>>)
    ensures Prepend(a, Prepend(b, r)) == Prepend(a + b, r)
  {
    if r.Ok? {
      assert a + (b + r.value) == a + b + r.value;
    }
  }

  /** `collectScreenshots(targetCount)`. `mkdir` is how the synchronous `ensureDirectoryExists`
      goes, which when it throws rejects the call before the browser is launched; `launch`
      is how `puppeteer.launch` settles; `order` is
      the permutation the random sort applied; the tasks settle in the order `finish`, and
      attempt `n` of task `i` meets `tries(i, n)`; `write` is how the synchronous metadata
      write goes and `closeBrowser` how the `browser.close()` of the `finally` settles. The
      metadata file is written only when every task settles without rejecting; the browser,
      once launched, is closed once, and a rejecting close replaces the call's outcome. */
  method CollectScreenshots(table: Config.Table, targetCount: int, mkdir: Option<Thrown>,
                            launch: Option<Thrown>, order: seq<nat>, finish: seq<nat>,
                            tries: (nat, nat) -> Attempt,
                            write: Option<Thrown>, closeBrowser: Option<Thrown>)
    returns (metadataFile: Option<seq<PageRecord>>, browserCloses: nat, rejected: Option<Thrown>)
    requires IsPermutation(order, |Config.Pairs(table)|)
    requires IsPermutation(finish, |CollectApi.Tasks(table, order, targetCount)|)
    ensures mkdir.Some? ==> rejected == mkdir && metadataFile.None? && browserCloses == 0
    ensures var settled := Settle(CollectApi.Tasks(table, order, targetCount), finish, tries);
            mkdir.None? ==>
              && (metadataFile.Some? <==> launch.None? && settled.Ok? && write.None?)
              && (metadataFile.Some? ==> metadataFile.value == settled.value)
              && (launch.Some? ==> rejected == launch)
              && (launch.None? && closeBrowser.Some? ==> rejected == closeBrowser)
              && (launch.None? && closeBrowser.None? ==>
                    rejected == if settled.Threw? then Some(settled.thrown) else write)
    ensures browserCloses == if mkdir.None? && launch.None? then 1 else 0
  {
    if mkdir.Some? {
      return None, 0, mkdir;
    }
    var pairs := CollectApi.BuildTargets(table);
    var shuffled := CollectApi.Reorder(pairs, order);
    if launch.Some? {
      return None, 0, launch;
    }
    var tasks := SlicePrefix(shuffled, targetCount);
    metadataFile, rejected := RunBatch(tasks, finish, tries, write);
    browserCloses := 1;
    if closeBrowser.Some? {
      rejected := closeBrowser;
    }
  }

  /** `await Promise.all(tasks)` and the metadata write after it: the records are pushed in
      settling order, the first rejection skips the write, and a write that throws (as
      `write` says) rejects. */
  method RunBatch(tasks: seq<Config.Target>, finish: seq<nat>, tries: (nat, nat) -> Attempt,
                  write: Option<Thrown>)
    returns (metadataFile: Option<seq<PageRecord>>, rejected: Option<Thrown>)
    requires forall k :: 0 <= k < |finish| ==> finish[k] < |tasks|
    ensures var settled := Settle(tasks, finish, tries);
            && (metadataFile.Some? <==> settled.Ok? && write.None?)
            && (metadataFile.Some? ==> metadataFile.value == settled.value)
            && (rejected == if settled.Threw? then Some(settled.thrown) else write)
  {
    ghost var settled := Settle(tasks, finish, tries);
    var metadataList: seq<PageRecord> := [];
    assert finish[0..] == finish;
    assert settled.Ok? ==> [] + settled.value == settled.value;
    var k := 0;
    while k < |finish|
      invariant 0 <= k <= |finish|
      invariant Prepend(metadataList, Settle(tasks, finish[k..], tries)) == settled
    {
      var run := TaskRun(tasks, finish[k], tries);
      SettleFrom(tasks, finish, k, tries);
      match run.result {
        case Threw(e) =>
          return None, Some(e);
        case Ok(m) =>
          if m.Some? {
            PrependPrepend(metadataList, [m.value], Settle(tasks, finish[k + 1..], tries));
            metadataList := metadataList + [m.value];
          }
      }
      k := k + 1;
    }
    assert metadataList + [] == metadataList;
    if write.Some? {
      return None, write;
    }
    return Some(metadataList), None;
  }
}
