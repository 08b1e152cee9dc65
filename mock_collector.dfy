/** The mock collector (src/mock-collector.ts): it fabricates one record per URL for the
    first `limit` URLs of the category table, with fixed image sizes and bounded random
    counts, then writes the records and one training example per record. */
module MockCollector {
  import opened Common
  import opened Types
  import Config

  const MockViewport: Viewport := Viewport(1920, 1080)

  /** The fixed parts of a mock record's description and title. */
  const DescriptionLead: string := "This is a mock description for "
  const TitleJoint: string := " Website - "

  /** The six `Math.random()` values one record draws, in source order. */
  datatype Draws = Draws(fileSize: Unit, buttons: Unit, links: Unit, forms: Unit, images: Unit, inputs: Unit)

  /** What record `i` meets besides its URL: a fresh UUID, the clock, and its random draws. */
  datatype MockInput = MockInput(id: string, timestamp: string, draws: Draws)

  /** `Math.floor(Math.random() * span) + low`: a value in `[low, low + span)`. */
  function Spread(r: Unit, span: nat, low: int): (v: int)
    requires span > 0
    ensures low <= v < low + span
  {
    ScaledIndex(r, span) + low
  }

  /** The element counts of a mock page. */
  function MockElements(d: Draws): (e: Elements)
    ensures 5 <= e.buttons <= 24 && 10 <= e.links <= 59 && 1 <= e.forms <= 5
    ensures 5 <= e.images <= 34 && 3 <= e.inputs <= 17
  {
    Elements(Spread(d.buttons, 20, 5), Spread(d.links, 50, 10), Spread(d.forms, 5, 1),
             Spread(d.images, 30, 5), Spread(d.inputs, 15, 3))
  }

  /** `category.charAt(0).toUpperCase() + category.slice(1)` */
  function Capitalize(s: string): (r: string)
    ensures |r| == |s|
    ensures |s| > 0 ==> r[0] == UpperChar(s[0]) && r[1..] == s[1..]
  {
    if |s| == 0 then "" else [UpperChar(s[0])] + s[1..]
  }

  /** The name of the `i`-th mock image. */
  function MockFilename(i: nat): string {
    "mock-" + NatToString(i) + ".png"
  }

  /** Different records get different image names. */
  lemma MockFilenamesUnique(i: nat, j: nat)
    requires i != j
    ensures MockFilename(i) != MockFilename(j)
  {
    IndexedNameInjective("mock-", ".png", i, j);
  }

  /** The record made for the `i`-th target `url` whose host name is `host`. */
  function MockRecord(table: Config.Table, i: nat, url: string, host: string, input: MockInput): Metadata {
    var category := Config.CategoryLabel(table, url);
    Metadata(
      input.id, url,
      Some(Capitalize(category) + TitleJoint + host),
      Some(DescriptionLead + url),
      input.timestamp, category, Some(MockViewport),
      Some(ImageInfo(MockFilename(i), 1920, 1080, Spread(input.draws.fileSize, 1000000, 500000))),
      Some(MockElements(input.draws)),
      None)
  }

  /** Every mock record carries its inputs' id and timestamp, its URL's category, a title
      made of the capitalised category and the host name, the fixed 1920×1080 size, the
      image name of its index, and random fields in their ranges. */
  lemma MockRecordFields(table: Config.Table, i: nat, url: string, host: string, input: MockInput)
    ensures var m := MockRecord(table, i, url, host, input);
            && m.id == input.id && m.url == url && m.timestamp == input.timestamp
            && m.category == Config.CategoryLabel(table, url)
            && m.title == Some(Capitalize(m.category) + TitleJoint + host)
            && m.viewport == Some(MockViewport) && m.error.None?
            && m.screenshot.Some? && m.screenshot.value.filename == MockFilename(i)
            && m.screenshot.value.width == 1920 && m.screenshot.value.height == 1080
            && 500000 <= m.screenshot.value.fileSize <= 1499999
            && m.elements.Some?
            && 5 <= m.elements.value.buttons <= 24 && 10 <= m.elements.value.links <= 59
            && 1 <= m.elements.value.forms <= 5 && 5 <= m.elements.value.images <= 34
            && 3 <= m.elements.value.inputs <= 17
  {
  }

  /** The records made for targets `0 .. n - 1`, when each of their host names parses. */
  function MockRecords(table: Config.Table, targets: seq<string>, n: nat,
                       inputs: nat -> MockInput, hostOf: string -> Option<string>): (ms: seq<Metadata>)
    requires n <= |targets|
    requires forall k :: 0 <= k < n ==> hostOf(targets[k]).Some?
    ensures |ms| == n
    decreases n
  {
    if n == 0 then []
    else
      MockRecords(table, targets, n - 1, inputs, hostOf)
        + [MockRecord(table, n - 1, targets[n - 1], hostOf(targets[n - 1]).value, inputs(n - 1))]
  }

  /** The `k`-th record is made from the `k`-th target, its host name and the `k`-th inputs. */
  lemma {:induction false} MockRecordsAt(table: Config.Table, targets: seq<string>, n: nat, k: nat,
                                         inputs: nat -> MockInput, hostOf: string -> Option<string>)
    requires k < n <= |targets|
    requires forall j :: 0 <= j < n ==> hostOf(targets[j]).Some?
    ensures MockRecords(table, targets, n, inputs, hostOf)[k]
              == MockRecord(table, k, targets[k], hostOf(targets[k]).value, inputs(k))
    decreases n
  {
    var init := MockRecords(table, targets, n - 1, inputs, hostOf);
    var last := MockRecord(table, n - 1, targets[n - 1], hostOf(targets[n - 1]).value, inputs(n - 1));
    assert MockRecords(table, targets, n, inputs, hostOf) == init + [last];
    if k < n - 1 {
      MockRecordsAt(table, targets, n - 1, k, inputs, hostOf);
      assert (init + [last])[k] == init[k];
    } else {
      assert k == n - 1;
      assert (init + [last])[k] == last;
    }
  }

  /** No two records of one run share an image. */
  lemma MockImagesDistinct(table: Config.Table, targets: seq<string>, n: nat,
                           inputs: nat -> MockInput, hostOf: string -> Option<string>)
    requires n <= |targets|
    requires forall k :: 0 <= k < n ==> hostOf(targets[k]).Some?
    ensures forall i, j :: 0 <= i < j < n ==>
              MockRecords(table, targets, n, inputs, hostOf)[i].screenshot
                != MockRecords(table, targets, n, inputs, hostOf)[j].screenshot
  {
    var ms := MockRecords(table, targets, n, inputs, hostOf);
    forall i, j | 0 <= i < j < n
      ensures ms[i].screenshot != ms[j].screenshot
    {
      MockRecordsAt(table, targets, n, i, inputs, hostOf);
      MockRecordsAt(table, targets, n, j, inputs, hostOf);
      MockFilenamesUnique(i, j);
    }
  }

  /** The targets: the first `limit` URLs of the flattened table. */
  function MockTargets(table: Config.Table, limit: int): (r: seq<string>)
    ensures limit >= 0 ==> |r| == Min(limit, |Config.AllUrls(table)|)
    ensures r <= Config.AllUrls(table)
  {
    SlicePrefix(Config.AllUrls(table), limit)
  }

  /** The number of leading targets whose host name parses. */
  function ParsedPrefix(targets: seq<string>, hostOf: string -> Option<string>): (n: nat)
    ensures n <= |targets|
    ensures forall k :: 0 <= k < n ==> hostOf(targets[k]).Some?
    ensures n < |targets| ==> hostOf(targets[n]).None?
    decreases |targets|
  {
    if |targets| == 0 || hostOf(targets[0]).None? then 0
    else
      var n := ParsedPrefix(targets[1..], hostOf);
      assert forall k :: 1 <= k < n + 1 ==> targets[k] == targets[1..][k - 1];
      n + 1
  }

  /** One training example: the mock image reference and the fields of the answer. */
  datatype MockExample = MockExample(
    imageUrl: string,
    category: string,
    title: Option<string>,
    elements: Option<Elements>,
    description: Option<string>)

  function MockExampleFor(m: Metadata): (x: MockExample)
    ensures x.imageUrl == "mock-image-" + m.id
    ensures x.category == m.category && x.title == m.title
    ensures x.elements == m.elements && x.description == m.description
  {
    MockExample("mock-image-" + m.id, m.category, m.title, m.elements, m.description)
  }

  /** One more parsed target adds its record at the end. */
  lemma MockRecordsSnoc(table: Config.Table, targets: seq<string>, i: nat, inputs: nat -> MockInput,
                        hostOf: string -> Option<string>, start: seq<Metadata>)
    requires i < ParsedPrefix(targets, hostOf)
    ensures start + MockRecords(table, targets, i + 1, inputs, hostOf)
              == start + MockRecords(table, targets, i, inputs, hostOf)
                 + [MockRecord(table, i, targets[i], hostOf(targets[i]).value, inputs(i))]
  {
  }

  class MockCollector {
    var metadata: seq<Metadata>
    /** The lines of `mock_metadata.jsonl`, one record each. */
    var metadataFile: seq<Metadata>
    /** The lines of `mock_finetuning_data.jsonl`, one example each. */
    var exportFile: seq<MockExample>

    constructor()
      ensures metadata == [] && metadataFile == [] && exportFile == []
    {
      metadata := [];
      metadataFile := [];
      exportFile := [];
    }

    /** `collectMockData(limit)`: one record per target, in order. `new URL(url)` throws on a
        URL whose host does not parse, which ends the call before the files are written;
        `complete` says whether it got through. The two writes settle as `saveWrite` and
        `exportWrite` say, and `rejected` is the write rejection the call ends with. */
    method CollectMockData(table: Config.Table, limit: int, inputs: nat -> MockInput,
                           hostOf: string -> Option<string>,
                           saveWrite: Option<Thrown>, exportWrite: Option<Thrown>)
      returns (complete: bool, rejected: Option<Thrown>)
      modifies this
      ensures var targets := MockTargets(table, limit);
              var n := ParsedPrefix(targets, hostOf);
              && metadata == old(metadata) + MockRecords(table, targets, n, inputs, hostOf)
              && (complete <==> n == |targets|)
      ensures rejected == if !complete then None else if saveWrite.Some? then saveWrite else exportWrite
      ensures complete && saveWrite.None? ==> metadataFile == metadata
      ensures !(complete && saveWrite.None?) ==> metadataFile == old(metadataFile)
      ensures complete && saveWrite.None? && exportWrite.None? ==>
                && |exportFile| == |metadata|
                && forall k :: 0 <= k < |metadata| ==> exportFile[k] == MockExampleFor(metadata[k])
      ensures !(complete && saveWrite.None? && exportWrite.None?) ==> exportFile == old(exportFile)
    {
      var targets := SlicePrefix(Config.AllUrls(table), limit);
      complete := MakeRecords(table, targets, inputs, hostOf);
      rejected := None;
      if complete {
        rejected := SaveMetadata(saveWrite);
        if rejected.None? {
          rejected := ExportForFineTuning(exportWrite);
        }
      }
    }

    /** The loop of `collectMockData`: pushes the record of each target in turn, and stops at
        the first target whose host name does not parse. */
    method MakeRecords(table: Config.Table, targets: seq<string>, inputs: nat -> MockInput,
                       hostOf: string -> Option<string>) returns (complete: bool)
      modifies this`metadata
      ensures var n := ParsedPrefix(targets, hostOf);
              && metadata == old(metadata) + MockRecords(table, targets, n, inputs, hostOf)
              && (complete <==> n == |targets|)
    {
      ghost var n := ParsedPrefix(targets, hostOf);
      ghost var start := metadata;
      for i := 0 to |targets|
        invariant i <= n
        invariant metadata == start + MockRecords(table, targets, i, inputs, hostOf)
      {
        var url := targets[i];
        var host := hostOf(url);
        if host.None? {
          assert i == n;
          return false;
        }
        assert i < n;
        var record := MockRecord(table, i, url, host.value, inputs(i));
        MockRecordsSnoc(table, targets, i, inputs, hostOf, start);
        Push(record);
      }
      complete := true;
    }

    /** `this.metadata.push(record)` */
    method Push(record: Metadata)
      modifies this`metadata
      ensures metadata == old(metadata) + [record]
    {
      metadata := metadata + [record];
    }

    /** `saveMetadata()`: every record, one per line, in list order, when the write
        (settling as `write` says) goes through; a rejected write is passed on. */
    method SaveMetadata(write: Option<Thrown>) returns (rejected: Option<Thrown>)
      modifies this`metadataFile
      ensures rejected == write
      ensures write.None? ==> metadataFile == metadata
      ensures write.Some? ==> metadataFile == old(metadataFile)
    {
      rejected := write;
      if write.None? {
        metadataFile := metadata;
      }
    }

    /** `exportForFineTuning()`: one example per record, in order, when the write (settling
        as `write` says) goes through; a rejected write is passed on. */
    method ExportForFineTuning(write: Option<Thrown>) returns (rejected: Option<Thrown>)
      modifies this`exportFile
      ensures rejected == write
      ensures write.None? ==> |exportFile| == |metadata|
      ensures write.None? ==> forall k :: 0 <= k < |metadata| ==> exportFile[k] == MockExampleFor(metadata[k])
      ensures write.Some? ==> exportFile == old(exportFile)
    {
      var data: seq<MockExample> := [];
      for i := 0 to |metadata|
        invariant |data| == i
        invariant forall k :: 0 <= k < i ==> data[k] == MockExampleFor(metadata[k])
      {
        data := data + [MockExampleFor(metadata[i])];
      }
      rejected := write;
      if write.None? {
        exportFile := data;
      }
    }
  }
}
