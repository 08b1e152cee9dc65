/** The converter script (src/convert-to-finetuning.ts): it reads the records the API
    collector saved in `./dataset/metadata.jsonl`, one JSON object per line, and writes one
    four-prompt training example per record to `./data/finetuning_data.jsonl`. The file
    system, `JSON.parse` and the `Math.random()` draws are parameters; the prompt wording and
    the JSON text are abstracted to the chosen prompt's index and the fields it uses. */
module Convert {
  import opened Common
  import CollectApi

  type Record = CollectApi.ApiRecord

  /** The number of prompt pairs the converter chooses from. */
  const PromptCount: nat := 4

  /** The base64 text used for an image that cannot be read (a one-pixel PNG). */
  const PlaceholderBase64: string :=
    "iVBORw0KGgoAAAANSUhEUgAAAAEAAAABCAYAAAAfFcSJAAAADUlEQVR42mNkYPhfDwAChwGA60e6kgAAAABJRU5ErkJggg=="

  /** One message of an example: the fixed system prompt, the question of prompt `prompt`
      with the image as a data URL, and the answer of prompt `prompt`, which speaks of the
      record's category, title and page type. */
  datatype Message =
    | SystemMessage
    | UserMessage(prompt: nat, imageUrl: string)
    | AssistantMessage(prompt: nat, category: string, title: string, pageType: string)

  datatype Example = Example(messages: seq<Message>)

  /** `path.join('./dataset', filename)` for a plain file name. */
  function ImagePath(filename: string): string {
    "dataset/" + filename
  }

  /** `imageToBase64(path)`: the file's base64 text, or the placeholder when it cannot be
      read; it never rejects. `images(path)` is the base64 text of a readable file. */
  function ImageToBase64(images: string -> Option<string>, path: string): (b: string)
    ensures images(path).Some? ==> b == images(path).value
    ensures images(path).None? ==> b == PlaceholderBase64
  {
    images(path).GetOr(PlaceholderBase64)
  }

  /** `content.trim().split('\n')`: never empty. */
  function MetadataLines(content: string): (lines: seq<string>)
    ensures |lines| >= 1
    ensures forall k :: 0 <= k < |lines| ==> '\n' !in lines[k]
  {
    Split(Trim(content), '\n')
  }

  /** `JSON.parse(line)`, which rejects the empty text whatever `parse` says of other text. */
  function ParseLine(parse: string -> Option<Record>, line: string): (r: Option<Record>)
    ensures line == "" ==> r.None?
    ensures line != "" ==> r == parse(line)
  {
    if line == "" then None else parse(line)
  }

  /** `lines.map(line => JSON.parse(line))`: every record, or the index of the first line that
      does not parse. */
  datatype Parsed = AllParsed(records: seq<Record>) | BadLine(index: nat)

  function ParseAll(parse: string -> Option<Record>, lines: seq<string>): (p: Parsed)
    ensures p.AllParsed? ==> |p.records| == |lines|
    ensures p.AllParsed? ==> forall k :: 0 <= k < |lines| ==> ParseLine(parse, lines[k]) == Some(p.records[k])
    ensures p.BadLine? ==> p.index < |lines| && ParseLine(parse, lines[p.index]).None?
    ensures p.BadLine? ==> forall k :: 0 <= k < p.index ==> ParseLine(parse, lines[k]).Some?
    ensures p.AllParsed? <==> forall k :: 0 <= k < |lines| ==> ParseLine(parse, lines[k]).Some?
    decreases |lines|
  {
    if |lines| == 0 then AllParsed([])
    else
      match ParseLine(parse, lines[0])
      case None => BadLine(0)
      case Some(r) =>
        match ParseAll(parse, lines[1..])
        case BadLine(i) => BadLine(i + 1)
        case AllParsed(rs) => AllParsed([r] + rs)
  }

  /** The example for `meta` with image text `base64` and prompt `prompt`. */
  function ExampleFor(meta: Record, base64: string, prompt: nat): (x: Example)
    ensures |x.messages| == 3 && x.messages[0].SystemMessage?
    ensures x.messages[1] == UserMessage(prompt, "data:image/jpeg;base64," + base64)
    ensures x.messages[2] == AssistantMessage(prompt, meta.category, meta.title, meta.pageType)
  {
    Example([SystemMessage,
             UserMessage(prompt, "data:image/jpeg;base64," + base64),
             AssistantMessage(prompt, meta.category, meta.title, meta.pageType)])
  }

  /** The example of the `k`-th record: its own image and the `k`-th draw. */
  function ExampleAt(metas: seq<Record>, k: nat, images: string -> Option<string>, rand: nat -> Unit): (x: Example)
    requires k < |metas|
    ensures |x.messages| == 3 && x.messages[1].UserMessage? && x.messages[1].prompt < PromptCount
    ensures x.messages[2] == AssistantMessage(x.messages[1].prompt, metas[k].category, metas[k].title,
                                              metas[k].pageType)
  {
    ExampleFor(metas[k], ImageToBase64(images, ImagePath(metas[k].screenshotFilename)),
               ScaledIndex(rand(k), PromptCount))
  }

  /** How the script ends: `process.exit(1)` when the metadata file is missing, a rejection
      at one of its steps, or the examples written. */
  datatype Stage = MakeDataDir | ReadMetadata | ParseMetadata(line: nat) | WriteOutput
  datatype Ending = Exited(code: int) | Rejected(at: Stage) | Converted(count: nat)

  /** `convertToFineTuning()`. `found` says whether the metadata file exists, `mkdir`,
      `content` and `write` how creating `./data`, reading the metadata and writing the
      output settle, `parse` is `JSON.parse` on one line, `images` the readable images and
      `rand(k)` the draw for the `k`-th record; `output` is what was written. */
  method ConvertToFineTuning(found: bool, mkdir: Option<Thrown>, content: Outcome<string>,
                             parse: string -> Option<Record>, images: string -> Option<string>,
                             rand: nat -> Unit, write: Option<Thrown>)
    returns (ending: Ending, output: Option<seq<Example>>)
    ensures !found ==> ending == Exited(1) && output.None?
    ensures found && mkdir.Some? ==> ending == Rejected(MakeDataDir) && output.None?
    ensures found && mkdir.None? && content.Threw? ==> ending == Rejected(ReadMetadata) && output.None?
    ensures found && mkdir.None? && content.Ok? ==>
              var parsed := ParseAll(parse, MetadataLines(content.value));
              && (parsed.BadLine? ==> ending == Rejected(ParseMetadata(parsed.index)) && output.None?)
              && (parsed.AllParsed? && write.Some? ==> ending == Rejected(WriteOutput) && output.None?)
              && (parsed.AllParsed? && write.None? ==>
                    && ending == Converted(|parsed.records|)
                    && output.Some? && |output.value| == |parsed.records|
                    && forall k :: 0 <= k < |parsed.records| ==>
                         output.value[k] == ExampleAt(parsed.records, k, images, rand))
  {
    if !found {
      return Exited(1), None;
    }
    if mkdir.Some? {
      return Rejected(MakeDataDir), None;
    }
    if content.Threw? {
      return Rejected(ReadMetadata), None;
    }
    var parsed := ParseAll(parse, MetadataLines(content.value));
    if parsed.BadLine? {
      return Rejected(ParseMetadata(parsed.index)), None;
    }
    var metas := parsed.records;
    var data: seq<Example> := [];
    for k := 0 to |metas|
      invariant |data| == k
      invariant forall j :: 0 <= j < k ==> data[j] == ExampleAt(metas, j, images, rand)
    {
      var meta := metas[k];
      var imagePath := ImagePath(meta.screenshotFilename);
      var prompt := ScaledIndex(rand(k), PromptCount);
      var base64 := ImageToBase64(images, imagePath);
      data := data + [ExampleFor(meta, base64, prompt)];
    }
    if write.Some? {
      return Rejected(WriteOutput), None;
    }
    return Converted(|data|), Some(data);
  }

  /** The text the API collector saves: each record's JSON on its own line. */
  function SavedText(records: seq<Record>, encode: Record -> string): string {
    Join(EncodedLines(records, encode), '\n')
  }

  /** A metadata file whose text is empty or only white space fails at its first line:
      `"".split('\n')` is `[""]`, and the empty text is not JSON. */
  lemma EmptyMetadataRejected(content: string, parse: string -> Option<Record>)
    requires Trim(content) == ""
    ensures ParseAll(parse, MetadataLines(content)) == BadLine(0)
  {
    assert MetadataLines(content) == [""];
  }

  /** Converting what the API collector saved gives back its records, in order, so the
      script writes one example per saved record. This holds when the collector saved at
      least one record and each record's JSON is an object on one line (`JSON.stringify`
      escapes line feeds) that `JSON.parse` reads back. With no record the file is empty and
      the conversion fails, as `EmptyMetadataRejected` shows. */
  lemma SavedTextRoundTrip(records: seq<Record>, encode: Record -> string, parse: string -> Option<Record>)
    requires |records| >= 1
    requires forall r :: |encode(r)| >= 2 && encode(r)[0] == '{' && encode(r)[|encode(r)| - 1] == '}'
    requires forall r :: '\n' !in encode(r)
    requires forall r :: parse(encode(r)) == Some(r)
    ensures ParseAll(parse, MetadataLines(SavedText(records, encode))) == AllParsed(records)
  {
    var lines := EncodedLines(records, encode);
    SavedLines(records, encode);
    var parsed := ParseAll(parse, lines);
    assert forall k :: 0 <= k < |lines| ==> ParseLine(parse, lines[k]) == Some(records[k]);
    assert parsed.records == records;
  }

  function EncodedLines(records: seq<Record>, encode: Record -> string): (lines: seq<string>)
    ensures |lines| == |records|
    ensures forall k :: 0 <= k < |records| ==> lines[k] == encode(records[k])
  {
    seq(|records|, k requires 0 <= k < |records| => encode(records[k]))
  }

  /** Trimming and splitting the saved text gives back its lines. */
  lemma SavedLines(records: seq<Record>, encode: Record -> string)
    requires |records| >= 1
    requires forall r :: |encode(r)| >= 2 && encode(r)[0] == '{' && encode(r)[|encode(r)| - 1] == '}'
    requires forall r :: '\n' !in encode(r)
    ensures MetadataLines(SavedText(records, encode)) == EncodedLines(records, encode)
  {
    var lines := EncodedLines(records, encode);
    var text := Join(lines, '\n');
    JoinEnds(lines, '\n');
    TrimKeeps(text);
    SplitJoin(lines, '\n');
  }

  /** An empty saved list is the empty file, which the converter rejects. */
  lemma NoRecordsRejected(encode: Record -> string, parse: string -> Option<Record>)
    ensures ParseAll(parse, MetadataLines(SavedText([], encode))) == BadLine(0)
  {
    assert SavedText([], encode) == "";
    assert Trim("") == "";
    EmptyMetadataRejected("", parse);
  }
}
