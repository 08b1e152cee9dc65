/** The API-based collector (src/collect-api.ts): a page type guessed from the URL, a
    screenshot from the remote API or a placeholder image, one record per captured site,
    and the batch run that pairs every table URL with its category, reorders the pairs,
    processes the first `targetCount` of them and writes the records that came back. */
module CollectApi {
  import opened Common
  import opened Types
  import Config

  const ScreenshotWidth: int := 1024
  const ScreenshotHeight: int := 768

  type Bytes = seq<bv8>

  // ---------------------------------------------------------------------------
  // inferPageType(url)

  /** One test of the page-type guess: the type it yields and the keywords that select it. */
  datatype Rule = Rule(pageType: string, keywords: seq<string>)

  /** The tests in the order they are tried. */
  const Rules: seq<Rule> := [
    Rule("login", ["login", "signin"]),
    Rule("search", ["search"]),
    Rule("product", ["product", "item"]),
    Rule("article", ["article", "post"]),
    Rule("video", ["video", "watch"]),
    Rule("checkout", ["checkout", "cart"])]

  const PageTypes: set<string> := {"login", "search", "product", "article", "video", "checkout", "general"}

  predicate Matches(u: string, r: Rule) {
    exists k :: 0 <= k < |r.keywords| && Contains(u, r.keywords[k])
  }

  /** The reference reading of the guess: the type of the first rule from position `i` on
      that has a keyword in `u`, or `"general"` when none has. */
  function FirstMatch(rules: seq<Rule>, u: string, i: nat): string
    decreases |rules| - i
  {
    if i >= |rules| then "general"
    else if Matches(u, rules[i]) then rules[i].pageType
    else FirstMatch(rules, u, i + 1)
  }

  /** Rule `j` is the first rule from position `i` on with a keyword in `u`. */
  predicate FirstHit(rules: seq<Rule>, u: string, i: nat, j: nat) {
    i <= j < |rules| && Matches(u, rules[j]) && forall h :: i <= h < j ==> !Matches(u, rules[h])
  }

  /** The first-match reading picks the first rule that matches. */
  lemma {:induction false} FirstMatchPicksFirst(rules: seq<Rule>, u: string, i: nat, j: nat)
    requires FirstHit(rules, u, i, j)
    ensures FirstMatch(rules, u, i) == rules[j].pageType
    decreases j - i
  {
    if j > i {
      assert !Matches(u, rules[i]);
      FirstMatchPicksFirst(rules, u, i + 1, j);
    }
  }

  /** With no matching rule the reading is `"general"`. */
  lemma {:induction false} FirstMatchNone(rules: seq<Rule>, u: string, i: nat)
    requires forall j :: i <= j < |rules| ==> !Matches(u, rules[j])
    ensures FirstMatch(rules, u, i) == "general"
    decreases |rules| - i
  {
    if i < |rules| {
      FirstMatchNone(rules, u, i + 1);
    }
  }

  /** For rules that do not themselves yield `"general"`, the reading is `"general"` only
      when no rule matches. */
  lemma {:induction false} FirstMatchGeneral(rules: seq<Rule>, u: string, i: nat)
    requires forall j :: i <= j < |rules| ==> rules[j].pageType != "general"
    requires FirstMatch(rules, u, i) == "general"
    ensures forall j :: i <= j < |rules| ==> !Matches(u, rules[j])
    decreases |rules| - i
  {
    if i < |rules| {
      FirstMatchGeneral(rules, u, i + 1);
    }
  }

  /** `inferPageType(url)`: the ordered keyword tests on the lower-cased URL. */
  function InferPageType(url: string): (t: string)
    ensures t in PageTypes
  {
    var u := ToLower(url);
    if Contains(u, "login") || Contains(u, "signin") then "login"
    else if Contains(u, "search") then "search"
    else if Contains(u, "product") || Contains(u, "item") then "product"
    else if Contains(u, "article") || Contains(u, "post") then "article"
    else if Contains(u, "video") || Contains(u, "watch") then "video"
    else if Contains(u, "checkout") || Contains(u, "cart") then "checkout"
    else "general"
  }

  lemma MatchesPair(u: string, t: string, a: string, b: string)
    ensures Matches(u, Rule(t, [a, b])) <==> Contains(u, a) || Contains(u, b)
  {
    if Contains(u, a) {
      assert [a, b][0] == a;
    }
    if Contains(u, b) {
      assert [a, b][1] == b;
    }
  }

  lemma MatchesSingle(u: string, t: string, a: string)
    ensures Matches(u, Rule(t, [a])) <==> Contains(u, a)
  {
    if Contains(u, a) {
      assert [a][0] == a;
    }
  }

  /** The chain of tests is the first-match reading of the rule list, on the lower-cased URL. */
  lemma InferPageTypeIsFirstMatch(url: string)
    ensures InferPageType(url) == FirstMatch(Rules, ToLower(url), 0)
  {
    var u := ToLower(url);
    MatchesPair(u, "login", "login", "signin");
    MatchesSingle(u, "search", "search");
    MatchesPair(u, "product", "product", "item");
    MatchesPair(u, "article", "article", "post");
    MatchesPair(u, "video", "video", "watch");
    MatchesPair(u, "checkout", "checkout", "cart");
    assert FirstMatch(Rules, u, 6) == "general";
    assert FirstMatch(Rules, u, 5) == if Contains(u, "checkout") || Contains(u, "cart") then "checkout" else "general";
    assert FirstMatch(Rules, u, 4) == if Contains(u, "video") || Contains(u, "watch") then "video" else FirstMatch(Rules, u, 5);
    assert FirstMatch(Rules, u, 3) == if Contains(u, "article") || Contains(u, "post") then "article" else FirstMatch(Rules, u, 4);
    assert FirstMatch(Rules, u, 2) == if Contains(u, "product") || Contains(u, "item") then "product" else FirstMatch(Rules, u, 3);
    assert FirstMatch(Rules, u, 1) == if Contains(u, "search") then "search" else FirstMatch(Rules, u, 2);
  }

  /** The guess is `"general"` exactly when no keyword occurs in the lower-cased URL, and
      otherwise it is the type of the first rule whose keyword occurs. */
  lemma InferPageTypeFirstRule(url: string)
    ensures InferPageType(url) == "general" <==>
              forall i :: 0 <= i < |Rules| ==> !Matches(ToLower(url), Rules[i])
    ensures forall j: nat :: FirstHit(Rules, ToLower(url), 0, j) ==> InferPageType(url) == Rules[j].pageType
  {
    var u := ToLower(url);
    InferPageTypeIsFirstMatch(url);
    if forall i :: 0 <= i < |Rules| ==> !Matches(u, Rules[i]) {
      FirstMatchNone(Rules, u, 0);
    }
    if InferPageType(url) == "general" {
      FirstMatchGeneral(Rules, u, 0);
    }
    forall j: nat | FirstHit(Rules, u, 0, j)
      ensures InferPageType(url) == Rules[j].pageType
    {
      FirstMatchPicksFirst(Rules, u, 0, j);
    }
  }

  /** A URL with both a sign-in keyword and a cart keyword is a login page. */
  lemma LoginBeforeCheckout(url: string)
    requires Contains(ToLower(url), "login") && Contains(ToLower(url), "cart")
    ensures InferPageType(url) == "login"
  {
  }

  /** The guess does not depend on the case of the URL's letters. */
  lemma InferPageTypeIgnoresCase(url: string)
    ensures InferPageType(ToLower(url)) == InferPageType(url)
  {
    ToLowerIdempotent(url);
  }

  // ---------------------------------------------------------------------------
  // getScreenshotFromAPI(url, width, height)

  /** The image from the remote API when a key is configured and the request succeeds,
      otherwise the generated placeholder; it never yields `null`, and it only fails when
      the placeholder generation itself fails. */
  function GetScreenshotFromApi(apiKey: string, api: Outcome<Bytes>, placeholder: Outcome<Bytes>)
    : (r: Outcome<Bytes>)
    ensures apiKey == "" ==> r == placeholder
    ensures apiKey != "" ==> r == (if api.Ok? then api else placeholder)
    ensures placeholder.Ok? ==> r.Ok?
  {
    if apiKey == "" then placeholder
    else
      match api
      case Ok(_) => api
      case Threw(_) => placeholder
  }

  // ---------------------------------------------------------------------------
  // processWebsite(url, category)

  /** The record this collector writes per site. */
  datatype ApiRecord = ApiRecord(
    id: string,
    url: string,
    title: string,
    category: string,
    screenshotFilename: string,
    viewport: Viewport,
    timestamp: string,
    pageType: string)

  /** What one site's processing meets: the fresh id and timestamp, how the API request and
      the placeholder generation settle, and whether writing the image file succeeds. */
  datatype ApiInput = ApiInput(
    id: string,
    timestamp: string,
    api: Outcome<Bytes>,
    placeholder: Outcome<Bytes>,
    writeOk: bool)

  /** The record returned (or `null`), and whether the image file was written. */
  datatype Processed = Processed(record: Option<ApiRecord>, fileWritten: bool)

  /** `processWebsite(url, category)`: every failure is caught and turned into `null`.
      `hostOf` is the host name that `new URL(url)` yields, or `None` when it throws. */
  function ProcessWebsite(url: string, category: string, apiKey: string, input: ApiInput,
                          hostOf: string -> Option<string>): (p: Processed)
    ensures p.fileWritten <==>
              GetScreenshotFromApi(apiKey, input.api, input.placeholder).Ok? && input.writeOk
    ensures p.record.Some? <==> p.fileWritten && hostOf(url).Some?
    ensures p.record.Some? ==>
              && p.record.value.id == input.id
              && p.record.value.url == url
              && p.record.value.category == category
              && p.record.value.screenshotFilename == input.id + ".jpg"
              && p.record.value.title == hostOf(url).value
              && p.record.value.viewport == Viewport(ScreenshotWidth, ScreenshotHeight)
              && p.record.value.pageType == InferPageType(url)
  {
    var filename := input.id + ".jpg";
    match GetScreenshotFromApi(apiKey, input.api, input.placeholder)
    case Threw(_) => Processed(None, false)
    case Ok(_) =>
      if !input.writeOk then Processed(None, false)
      else
        match hostOf(url)
        case None => Processed(None, true)
        case Some(domain) =>
          Processed(Some(ApiRecord(input.id, url, domain, category, filename,
                                   Viewport(ScreenshotWidth, ScreenshotHeight),
                                   input.timestamp, InferPageType(url))), true)
  }

  // ---------------------------------------------------------------------------
  // collectScreenshots(targetCount)

  /** The nested loops over the category table: one (url, category) pair per table entry,
      in table order. */
  method BuildTargets(table: Config.Table) returns (pairs: seq<Config.Target>)
    ensures pairs == Config.Pairs(table)
  {
    pairs := [];
    for c := 0 to |table|
      invariant pairs == Config.Pairs(table[..c])
    {
      var category := table[c];
      var tagged := Config.Tag(category);
      for u := 0 to |category.urls|
        invariant pairs == Config.Pairs(table[..c]) + tagged[..u]
      {
        pairs := pairs + [Config.Target(category.urls[u], category.name)];
        assert tagged[..u + 1] == tagged[..u] + [tagged[u]];
      }
      assert tagged[..|category.urls|] == tagged;
      assert table[..c + 1] == table[..c] + [category];
      Config.PairsAppend(table[..c], [category]);
      assert Config.Pairs([category]) == tagged + Config.Pairs([]);
    }
    assert table[..|table|] == table;
  }

  /** The pairs after the random-comparator sort, given as the permutation it applied. */
  function Reorder<T>(s: seq<T>, order: seq<nat>): (r: seq<T>)
    requires IsPermutation(order, |s|)
    ensures |r| == |s|
    ensures forall k :: 0 <= k < |r| ==> r[k] == s[order[k]]
  {
    seq(|s|, k requires 0 <= k < |s| => s[order[k]])
  }

  /** The pairs handed to the limiter: the first `targetCount` of the reordered pairs. */
  function Tasks(table: Config.Table, order: seq<nat>, targetCount: int): (r: seq<Config.Target>)
    requires IsPermutation(order, |Config.Pairs(table)|)
    ensures |r| <= |Config.Pairs(table)|
    ensures targetCount >= 0 ==> |r| == Min(targetCount, |Config.Pairs(table)|)
    ensures forall k :: 0 <= k < |r| ==> r[k] in Config.Pairs(table)
  {
    SlicePrefix(Reorder(Config.Pairs(table), order), targetCount)
  }

  /** The records pushed by the tasks, taken in the order `finish` in which they settle. */
  function Saved(tasks: seq<Config.Target>, finish: seq<nat>, apiKey: string,
                 inputs: nat -> ApiInput, hostOf: string -> Option<string>): (r: seq<ApiRecord>)
    requires forall k :: 0 <= k < |finish| ==> finish[k] < |tasks|
    ensures |r| <= |finish|
    decreases |finish|
  {
    if |finish| == 0 then []
    else
      var i := finish[|finish| - 1];
      var p := ProcessWebsite(tasks[i].url, tasks[i].category, apiKey, inputs(i), hostOf);
      Saved(tasks, finish[..|finish| - 1], apiKey, inputs, hostOf)
        + (if p.record.Some? then [p.record.value] else [])
  }

  /** Every saved record is the one its task returned, and when every task returns a record
      every task's record is saved. */
  lemma {:induction false} SavedRecords(tasks: seq<Config.Target>, finish: seq<nat>, apiKey: string,
                                        inputs: nat -> ApiInput, hostOf: string -> Option<string>)
    requires forall k :: 0 <= k < |finish| ==> finish[k] < |tasks|
    ensures forall r :: r in Saved(tasks, finish, apiKey, inputs, hostOf) ==>
              exists k :: 0 <= k < |finish| &&
                ProcessWebsite(tasks[finish[k]].url, tasks[finish[k]].category, apiKey,
                               inputs(finish[k]), hostOf).record == Some(r)
    ensures (forall k :: 0 <= k < |finish| ==>
               ProcessWebsite(tasks[finish[k]].url, tasks[finish[k]].category, apiKey,
                              inputs(finish[k]), hostOf).record.Some?)
            ==> |Saved(tasks, finish, apiKey, inputs, hostOf)| == |finish|
    decreases |finish|
  {
    if |finish| > 0 {
      var init := finish[..|finish| - 1];
      SavedRecords(tasks, init, apiKey, inputs, hostOf);
      forall r | r in Saved(tasks, finish, apiKey, inputs, hostOf)
        ensures exists k :: 0 <= k < |finish| &&
                  ProcessWebsite(tasks[finish[k]].url, tasks[finish[k]].category, apiKey,
                                 inputs(finish[k]), hostOf).record == Some(r)
      {
        if r in Saved(tasks, init, apiKey, inputs, hostOf) {
          var k :| 0 <= k < |init| &&
                   ProcessWebsite(tasks[init[k]].url, tasks[init[k]].category, apiKey,
                                  inputs(init[k]), hostOf).record == Some(r);
          assert init[k] == finish[k];
        } else {
          assert finish[|finish| - 1] == finish[|finish| - 1];
        }
      }
    }
  }

  /** Conversely, the record of every settled task that returned one is saved. */
  lemma {:induction false} SavedEveryRecord(tasks: seq<Config.Target>, finish: seq<nat>, apiKey: string,
                                            inputs: nat -> ApiInput, hostOf: string -> Option<string>)
    requires forall k :: 0 <= k < |finish| ==> finish[k] < |tasks|
    ensures forall k :: 0 <= k < |finish| ==>
              var p := ProcessWebsite(tasks[finish[k]].url, tasks[finish[k]].category, apiKey,
                                      inputs(finish[k]), hostOf);
              p.record.Some? ==> p.record.value in Saved(tasks, finish, apiKey, inputs, hostOf)
    decreases |finish|
  {
    if |finish| > 0 {
      var init := finish[..|finish| - 1];
      SavedEveryRecord(tasks, init, apiKey, inputs, hostOf);
      var saved := Saved(tasks, finish, apiKey, inputs, hostOf);
      var before := Saved(tasks, init, apiKey, inputs, hostOf);
      forall k | 0 <= k < |finish|
        ensures var p := ProcessWebsite(tasks[finish[k]].url, tasks[finish[k]].category, apiKey,
                                        inputs(finish[k]), hostOf);
                p.record.Some? ==> p.record.value in saved
      {
        var p := ProcessWebsite(tasks[finish[k]].url, tasks[finish[k]].category, apiKey,
                                inputs(finish[k]), hostOf);
        if p.record.None? {
        } else if k < |finish| - 1 {
          assert init[k] == finish[k];
          assert p.record.value in before;
        } else {
          assert saved == before + [p.record.value];
        }
      }
    }
  }

  /** `collectScreenshots(targetCount)`: the targets are the table's pairs reordered by
      `order` and cut to `targetCount`; task `i` meets `inputs(i)`, and the tasks push their
      records in the order `finish` in which they settle. `mkdir` is how the synchronous
      `ensureDirectoryExists` goes, which when it throws rejects the call before anything
      else happens. `metadataFile` is what the metadata file then holds, one record per
      line, or `None` when the synchronous write throws (as `write` says), which rejects the
      call with `rejected`. */
  method CollectScreenshots(table: Config.Table, targetCount: int, apiKey: string,
                            order: seq<nat>, finish: seq<nat>,
                            inputs: nat -> ApiInput, hostOf: string -> Option<string>,
                            mkdir: Option<Thrown>, write: Option<Thrown>)
    returns (metadataFile: Option<seq<ApiRecord>>, rejected: Option<Thrown>)
    requires IsPermutation(order, |Config.Pairs(table)|)
    requires IsPermutation(finish, |Tasks(table, order, targetCount)|)
    ensures rejected == if mkdir.Some? then mkdir else write
    ensures metadataFile.Some? <==> mkdir.None? && write.None?
    ensures metadataFile.Some? ==>
              && metadataFile.value == Saved(Tasks(table, order, targetCount), finish, apiKey, inputs, hostOf)
              && |metadataFile.value| <= |Tasks(table, order, targetCount)|
  {
    if mkdir.Some? {
      return None, mkdir;
    }
    var pairs := BuildTargets(table);
    var shuffled := Reorder(pairs, order);
    var tasks := SlicePrefix(shuffled, targetCount);
    var metadataList := RunTasks(tasks, finish, apiKey, inputs, hostOf);
    if write.Some? {
      return None, write;
    }
    return Some(metadataList), None;
  }

  /** `await Promise.all(tasks)`: each task pushes its record, if any, when it settles. */
  method RunTasks(tasks: seq<Config.Target>, finish: seq<nat>, apiKey: string,
                  inputs: nat -> ApiInput, hostOf: string -> Option<string>)
    returns (metadataList: seq<ApiRecord>)
    requires forall k :: 0 <= k < |finish| ==> finish[k] < |tasks|
    ensures metadataList == Saved(tasks, finish, apiKey, inputs, hostOf)
  {
    metadataList := [];
    for k := 0 to |finish|
      invariant metadataList == Saved(tasks, finish[..k], apiKey, inputs, hostOf)
    {
      var i := finish[k];
      var p := ProcessWebsite(tasks[i].url, tasks[i].category, apiKey, inputs(i), hostOf);
      assert finish[..k + 1][..k] == finish[..k] && finish[..k + 1][k] == i;
      assert Saved(tasks, finish[..k + 1], apiKey, inputs, hostOf) ==
             metadataList + (if p.record.Some? then [p.record.value] else []);
      if p.record.Some? {
        metadataList := metadataList + [p.record.value];
      }
    }
    assert finish[..|finish|] == finish;
  }
}
