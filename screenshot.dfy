/** The capture worker of the browser-driven collector (src/screenshot.ts): one page per URL,
    a metadata record filled in step by step, and every failure after the page is open
    turned into a returned record tagged with `error`. The browser, the image library and
    the file system are a script of what each step yields or throws. */
module Screenshot {
  import opened Common
  import opened Types
  import Config

  const BrowserNotInitialized: Thrown := ErrorObject("Browser not initialized")
  const CaptureViewport: Viewport := Viewport(1920, 1080)

  /** The awaited steps inside the capture's `try`, in the order they run. */
  datatype Stage =
    | SetViewport | Navigate | ReadTitle | CountElements | TakeScreenshot
    | ReadImageSize | EncodeImage | WriteImage | ReadFinalSize

  function Rank(s: Stage): nat {
    match s
    case SetViewport => 0
    case Navigate => 1
    case ReadTitle => 2
    case CountElements => 3
    case TakeScreenshot => 4
    case ReadImageSize => 5
    case EncodeImage => 6
    case WriteImage => 7
    case ReadFinalSize => 8
  }

  /** What the page and the libraries do in one capture: whether opening the page rejects,
      the first step that throws (if any), whether the `page.close()` at the end of the
      `try` rejects, whether the one in the `catch` rejects, and the values the other steps
      yield. The description lookup catches its own failure, so it only yields an optional
      text. */
  datatype PageScript = PageScript(
    newPage: Option<Thrown>,
    failure: Option<(Stage, Thrown)>,
    successClose: Option<Thrown>,
    catchClose: Option<Thrown>,
    title: string,
    description: Option<string>,
    elements: Elements,
    shotWidth: int,
    shotHeight: int,
    finalWidth: int,
    finalHeight: int,
    fileSize: int)

  /** The fresh identifier and timestamp of one capture, and its page script. */
  datatype CaptureInput = CaptureInput(id: string, timestamp: string, page: PageScript)

  /** The capture got past step `s`. */
  predicate Passed(p: PageScript, s: Stage) {
    p.failure.None? || Rank(p.failure.value.0) > Rank(s)
  }

  predicate FailsAt(p: PageScript, s: Stage) {
    p.failure.Some? && p.failure.value.0 == s
  }

  /** What the `catch` receives, if it runs: the failing step's error, or else the rejection
      of the page close that ends the `try`. */
  function Caught(p: PageScript): (c: Option<Thrown>)
    ensures p.failure.Some? ==> c == Some(p.failure.value.1)
    ensures p.failure.None? ==> c == p.successClose
  {
    if p.failure.Some? then Some(p.failure.value.1) else p.successClose
  }

  /** The image is shrunk only when it is wider or taller than the configured maximum. */
  predicate NeedsResize(width: int, height: int) {
    width > Config.MaxWidth || height > Config.MaxHeight
  }

  /** The record (or the thrown value) that `captureScreenshot(url, category)` settles with.
      The record is filled in place, so when the closing `page.close()` of a complete capture
      rejects, the record handed back by the `catch` keeps its screenshot and gains the error. */
  function CaptureSpec(ready: bool, url: string, category: string, input: CaptureInput): (r: Outcome<Metadata>)
    ensures !ready ==> r == Threw(BrowserNotInitialized)
    ensures ready ==> (r.Threw? <==> input.page.newPage.Some?
                                     || (Caught(input.page).Some? && input.page.catchClose.Some?))
    ensures ready && r.Threw? ==>
              r.thrown == (if input.page.newPage.Some? then input.page.newPage.value
                           else input.page.catchClose.value)
    ensures r.Ok? ==> r.value.id == input.id && r.value.url == url
                      && r.value.category == category && r.value.timestamp == input.timestamp
    ensures r.Ok? ==> (r.value.error.Some? <==> Caught(input.page).Some?)
    ensures r.Ok? && Caught(input.page).Some? ==> r.value.error == Some(ErrorText(Caught(input.page).value))
    ensures r.Ok? && input.page.failure.Some? ==> r.value.screenshot.None?
    ensures r.Ok? && input.page.failure.None? ==>
              && r.value.viewport == Some(CaptureViewport)
              && r.value.screenshot.Some?
              && r.value.screenshot.value.filename == input.id + ".png"
  {
    var p := input.page;
    if !ready then Threw(BrowserNotInitialized)
    else if p.newPage.Some? then Threw(p.newPage.value)
    else
      var m := Metadata(
        input.id,
        url,
        if Passed(p, ReadTitle) then Some(p.title) else None,
        if Passed(p, ReadTitle) && Truthy(p.description) then p.description else None,
        input.timestamp,
        category,
        if Passed(p, SetViewport) then Some(CaptureViewport) else None,
        if p.failure.None? then Some(ImageInfo(input.id + ".png", p.finalWidth, p.finalHeight, p.fileSize)) else None,
        if Passed(p, CountElements) then Some(p.elements) else None,
        None);
      if Caught(p).None? then Ok(m)
      else if p.catchClose.Some? then Threw(p.catchClose.value)
      else Ok(m.(error := Some(ErrorText(Caught(p).value))))
  }

  class ScreenshotCapture {
    /** `browser !== null` */
    var browserReady: bool
    /** Pages opened whose last `page.close()` has not been awaited yet. */
    var openPages: nat

    constructor()
      ensures !browserReady && openPages == 0
    {
      browserReady := false;
      openPages := 0;
    }

    /** Launches the browser; when the launch rejects, the field keeps its old value. */
    method Initialize(launched: bool)
      modifies this`browserReady
      ensures browserReady == (old(browserReady) || launched)
    {
      if launched {
        browserReady := true;
      }
    }

    /** Captures one URL. The page opened here is closed again on the success path and on
        the failure path (twice when the first close rejects); `resized` reports whether the
        image was shrunk. */
    method CaptureScreenshot(url: string, category: string, input: CaptureInput)
      returns (r: Outcome<Metadata>, resized: bool)
      modifies this`openPages
      ensures openPages == old(openPages)
      ensures r == CaptureSpec(browserReady, url, category, input)
      ensures resized <==> browserReady && input.page.newPage.None?
                           && Passed(input.page, ReadImageSize)
                           && NeedsResize(input.page.shotWidth, input.page.shotHeight)
    {
      resized := false;
      if !browserReady {
        return Threw(BrowserNotInitialized), false;
      }
      var p := input.page;
      if p.newPage.Some? {
        return Threw(p.newPage.value), false;
      }
      openPages := openPages + 1;
      var m := Metadata(input.id, url, None, None, input.timestamp, category, None, None, None, None);

      if FailsAt(p, SetViewport) { r := Abort(m, p.failure.value.1, p.catchClose); return; }
      m := m.(viewport := Some(CaptureViewport));

      if FailsAt(p, Navigate) { r := Abort(m, p.failure.value.1, p.catchClose); return; }

      if FailsAt(p, ReadTitle) { r := Abort(m, p.failure.value.1, p.catchClose); return; }
      m := m.(title := Some(p.title));
      if Truthy(p.description) {
        m := m.(description := p.description);
      }

      if FailsAt(p, CountElements) { r := Abort(m, p.failure.value.1, p.catchClose); return; }
      m := m.(elements := Some(p.elements));

      if FailsAt(p, TakeScreenshot) { r := Abort(m, p.failure.value.1, p.catchClose); return; }
      var filename := input.id + ".png";

      if FailsAt(p, ReadImageSize) { r := Abort(m, p.failure.value.1, p.catchClose); return; }
      resized := NeedsResize(p.shotWidth, p.shotHeight);

      if FailsAt(p, EncodeImage) { r := Abort(m, p.failure.value.1, p.catchClose); return; }
      if FailsAt(p, WriteImage) { r := Abort(m, p.failure.value.1, p.catchClose); return; }
      if FailsAt(p, ReadFinalSize) { r := Abort(m, p.failure.value.1, p.catchClose); return; }
      m := m.(screenshot := Some(ImageInfo(filename, p.finalWidth, p.finalHeight, p.fileSize)));

      if p.successClose.Some? {
        r := Abort(m, p.successClose.value, p.catchClose);
        return;
      }
      openPages := openPages - 1;
      r := Ok(m);
    }

    /** The `catch` branch: close the page, whose settling `close` says, and return the
        record tagged with the error; a rejecting close escapes the `catch` instead. */
    method Abort(m: Metadata, thrown: Thrown, close: Option<Thrown>) returns (r: Outcome<Metadata>)
      requires openPages > 0
      modifies this`openPages
      ensures openPages == old(openPages) - 1
      ensures close.Some? ==> r == Threw(close.value)
      ensures close.None? ==> r == Ok(m.(error := Some(ErrorText(thrown))))
    {
      openPages := openPages - 1;
      if close.Some? {
        return Threw(close.value);
      }
      r := Ok(m.(error := Some(ErrorText(thrown))));
    }
  }
}
