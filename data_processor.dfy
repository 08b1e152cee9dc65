/** The server's fine-tuning exporter (server/src/services/dataProcessor.ts): it reads a job's
    `metadata.json`, turns every record without an error into one three-message training
    example around that record's image, and writes the examples one per line. Reading the
    files, the clock-free `Math.random()` draws and the write are parameters; the prompt
    wording and the JSON text are abstracted to the index of the chosen prompt and the
    fields it is built from. */
module DataProcessor {
  import opened Common
  import ServerCollector

  type Item = ServerCollector.ShotRecord

  /** The number of prompt pairs the exporter chooses from. */
  const PromptCount: nat := 3

  /** One message of an example: the fixed system prompt, the user's question (prompt
      `prompt`) with the image as a data URL, and the answer of prompt `prompt` about the
      record's category and title. */
  datatype Message =
    | SystemMessage
    | UserMessage(prompt: nat, imageUrl: string)
    | AssistantMessage(prompt: nat, category: string, title: string)

  datatype Example = Example(messages: seq<Message>)

  /** The example built for `item`, whose image reads as `base64`, with prompt `prompt`. */
  function ExampleFor(item: Item, base64: string, prompt: nat): (x: Example)
    ensures |x.messages| == 3
    ensures x.messages[0].SystemMessage?
    ensures x.messages[1] == UserMessage(prompt, "data:image/jpeg;base64," + base64)
    ensures x.messages[2] == AssistantMessage(prompt, item.category, item.title)
  {
    Example([SystemMessage,
             UserMessage(prompt, "data:image/jpeg;base64," + base64),
             AssistantMessage(prompt, item.category, item.title)])
  }

  /** The records that are not skipped: those whose `error` is unset or empty. */
  function Usable(items: seq<Item>): (r: seq<Item>)
    ensures |r| <= |items|
    ensures forall m :: m in r ==> m in items && !Truthy(m.error)
    decreases |items|
  {
    if |items| == 0 then []
    else
      var last := items[|items| - 1];
      Usable(items[..|items| - 1]) + (if Truthy(last.error) then [] else [last])
  }

  /** A record with an error is never exported; one without is. */
  lemma {:induction false} UsableExactly(items: seq<Item>, m: Item)
    requires m in items
    ensures m in Usable(items) <==> !Truthy(m.error)
    decreases |items|
  {
    if |items| > 0 && m != items[|items| - 1] {
      UsableExactly(items[..|items| - 1], m);
    }
  }

  /** The reference reading of the loop: the examples of the records in order, the `k`-th of
      them with the `k`-th draw; the first image that cannot be read rejects the call. */
  function Generate(items: seq<Item>, images: string -> Outcome<string>, rand: nat -> Unit)
    : (r: Outcome<seq<Example>>)
    ensures |items| == 0 ==> r == Ok([])
    ensures r.Ok? ==> |r.value| <= |items|
    decreases |items|
  {
    if |items| == 0 then Ok([])
    else
      match Generate(items[..|items| - 1], images, rand)
      case Threw(e) => Threw(e)
      case Ok(done) =>
        var item := items[|items| - 1];
        if Truthy(item.error) then Ok(done)
        else
          match images(item.filename)
          case Threw(e) => Threw(e)
          case Ok(base64) => Ok(done + [ExampleFor(item, base64, ScaledIndex(rand(|done|), PromptCount))])
  }

  /** The export succeeds exactly when every usable record's image can be read. */
  lemma {:induction false} GenerateOk(items: seq<Item>, images: string -> Outcome<string>, rand: nat -> Unit)
    ensures var usable := Usable(items);
            Generate(items, images, rand).Ok? <==> forall k :: 0 <= k < |usable| ==> images(usable[k].filename).Ok?
    decreases |items|
  {
    if |items| > 0 {
      var init := items[..|items| - 1];
      var last := items[|items| - 1];
      GenerateOk(init, images, rand);
      assert Usable(items) == Usable(init) + (if Truthy(last.error) then [] else [last]);
      assert forall k :: 0 <= k < |Usable(init)| ==> Usable(items)[k] == Usable(init)[k];
      if Generate(init, images, rand).Threw? {
        var k :| 0 <= k < |Usable(init)| && images(Usable(init)[k].filename).Threw?;
        assert images(Usable(items)[k].filename).Threw?;
      } else if !Truthy(last.error) {
        assert Usable(items)[|Usable(init)|] == last;
      } else {
        assert Usable(items) == Usable(init);
      }
    }
  }

  /** One step of `Generate`: how a successful run over `items` extends the run over all but
      its last record. */
  lemma GenerateLast(items: seq<Item>, images: string -> Outcome<string>, rand: nat -> Unit)
    requires |items| > 0 && Generate(items, images, rand).Ok?
    ensures var init := items[..|items| - 1];
            var last := items[|items| - 1];
            && Generate(init, images, rand).Ok?
            && var done := Generate(init, images, rand).value;
               var g := Generate(items, images, rand).value;
               && (Truthy(last.error) ==> Usable(items) == Usable(init) && g == done)
               && (!Truthy(last.error) ==>
                     && Usable(items) == Usable(init) + [last]
                     && images(last.filename).Ok?
                     && g == done + [ExampleFor(last, images(last.filename).value,
                                                ScaledIndex(rand(|done|), PromptCount))])
  {
  }

  /** A successful export holds one example per usable record. */
  lemma {:induction false} GenerateLength(items: seq<Item>, images: string -> Outcome<string>, rand: nat -> Unit)
    ensures Generate(items, images, rand).Ok? ==> |Generate(items, images, rand).value| == |Usable(items)|
    decreases |items|
  {
    if |items| > 0 && Generate(items, images, rand).Ok? {
      GenerateLast(items, images, rand);
      GenerateLength(items[..|items| - 1], images, rand);
    }
  }

  /** `x` is the example of `item` built from its image, which read, and the draw `r`. */
  predicate BuiltFrom(x: Example, item: Item, images: string -> Outcome<string>, r: Unit) {
    images(item.filename).Ok? && x == ExampleFor(item, images(item.filename).value, ScaledIndex(r, PromptCount))
  }

  /** A successful export holds one example per usable record, the `k`-th built from the
      `k`-th usable record's image with the `k`-th draw. */
  lemma {:induction false} GenerateExamples(items: seq<Item>, images: string -> Outcome<string>, rand: nat -> Unit)
    ensures var g := Generate(items, images, rand);
            var usable := Usable(items);
            g.Ok? ==> |g.value| == |usable| && forall k :: 0 <= k < |usable| ==>
                        BuiltFrom(g.value[k], usable[k], images, rand(k))
    decreases |items|
  {
    var g := Generate(items, images, rand);
    GenerateLength(items, images, rand);
    if |items| > 0 && g.Ok? {
      var init := items[..|items| - 1];
      GenerateLast(items, images, rand);
      GenerateLength(init, images, rand);
      GenerateExamples(init, images, rand);
      var done := Generate(init, images, rand).value;
      var u := Usable(init);
      var usable := Usable(items);
      var last := items[|items| - 1];
      if Truthy(last.error) {
        assert usable == u && g.value == done;
      } else {
        var x := ExampleFor(last, images(last.filename).value, ScaledIndex(rand(|done|), PromptCount));
        assert usable == u + [last] && g.value == done + [x];
        assert BuiltFrom(x, last, images, rand(|u|));
        forall k | 0 <= k < |usable|
          ensures BuiltFrom(g.value[k], usable[k], images, rand(k))
        {
          if k < |u| {
            assert usable[k] == u[k] && g.value[k] == done[k];
          } else {
            assert usable[k] == last && g.value[k] == x;
          }
        }
      }
    }
  }

  /** Once an image read has failed, later records change nothing. */
  lemma {:induction false} GenerateStopsAtFailure(items: seq<Item>, n: nat, images: string -> Outcome<string>,
                                                  rand: nat -> Unit)
    requires n <= |items|
    requires Generate(items[..n], images, rand).Threw?
    ensures Generate(items, images, rand) == Generate(items[..n], images, rand)
    decreases |items| - n
  {
    if n < |items| {
      assert items[..n + 1][..n] == items[..n];
      GenerateStopsAtFailure(items, n + 1, images, rand);
    } else {
      assert items[..n] == items;
    }
  }

  /** The file the examples go to. */
  function OutputPath(uploadsDir: string): string {
    uploadsDir + "/finetuning_data.jsonl"
  }

  /** What the call resolves to. */
  datatype Summary = Summary(success: bool, count: nat, path: string)

  /** `generateFineTuningData(jobId)`. `metadata` is how reading and parsing `metadata.json`
      settles, `images(name)` how reading an image as base64 settles, `rand(k)` the `k`-th
      draw and `write` how the final write settles; `output` is what was written. */
  method GenerateFineTuningData(uploadsDir: string, metadata: Outcome<seq<Item>>,
                                images: string -> Outcome<string>, rand: nat -> Unit, write: Option<Thrown>)
    returns (result: Outcome<Summary>, output: Option<seq<Example>>)
    ensures metadata.Threw? ==> result == Threw(metadata.thrown) && output.None?
    ensures metadata.Ok? ==>
              var g := Generate(metadata.value, images, rand);
              && (g.Threw? ==> result == Threw(g.thrown) && output.None?)
              && (g.Ok? && write.Some? ==> result == Threw(write.value) && output.None?)
              && (g.Ok? && write.None? ==>
                    && output == Some(g.value)
                    && result == Ok(Summary(true, |g.value|, OutputPath(uploadsDir)))
                    && |g.value| == |Usable(metadata.value)|)
  {
    if metadata.Threw? {
      return Threw(metadata.thrown), None;
    }
    var items := metadata.value;
    var data: seq<Example> := [];
    for i := 0 to |items|
      invariant Generate(items[..i], images, rand) == Ok(data)
    {
      assert items[..i + 1][..i] == items[..i];
      var item := items[i];
      if Truthy(item.error) {
        continue;
      }
      var base64 := images(item.filename);
      if base64.Threw? {
        GenerateStopsAtFailure(items, i + 1, images, rand);
        return Threw(base64.thrown), None;
      }
      var prompt := ScaledIndex(rand(|data|), PromptCount);
      data := data + [ExampleFor(item, base64.value, prompt)];
    }
    assert items[..|items|] == items;
    GenerateLength(items, images, rand);
    if write.Some? {
      return Threw(write.value), None;
    }
    return Ok(Summary(true, |data|, OutputPath(uploadsDir))), Some(data);
  }
}
