/** The Office tester object (EyesOfficeTester/EyesOfficeTester.cs): its
    settings, the one progress record it reuses, and the methods that walk
    a directory, a Word document and an Excel workbook. Every call into the
    visual-checking session, every release of an Office document and every
    progress report is recorded, in order, in the environment's effect log;
    each method is proved to produce exactly the effects that the
    specification functions of `OfficeCheck` describe, and to leave the
    progress record as `Fold` of those effects. */
module OfficeTester {
  import opened Wrappers
  import opened ProgressRecord
  import opened OfficeCheck

  /** The batch the sessions report into (`BatchInfo`). */
  datatype BatchInfo = BatchInfo(name: string, id: string, notifyOnCompletion: bool)

  /** The configured checking client (`Eyes`): its batch, and the API key
      when one was set on it. */
  datatype EyesClient = EyesClient(batch: BatchInfo, apiKey: Option<string>)

  /** The tester's settings, all in one value. */
  datatype Settings = Settings(
    apiKey: string,
    appName: string,
    testName: string,
    batchName: string,
    serverUrl: string,
    notifyOnCompletion: bool,
    failOnDiff: bool,
    reportImages: bool,
    batch: Option<BatchInfo>,
    eyes: Option<EyesClient>)

  const DefaultBatchName := "Microsoft Office Tests"
  const DefaultServerUrl := "https://eyesapi.applitools.com"

  /** What the tester's surroundings observe: the effects in order, and the
      snapshots of the progress record the progress sink receives. */
  class Environment {
    ghost var log: seq<Effect>
    ghost var delivered: seq<UpdateValue>

    constructor ()
      ensures log == [] && delivered == []
    {
      log, delivered := [], [];
    }
  }

  class EyesOfficeTester {
    /** The effects and snapshots this tester produces. */
    const env: Environment
    /** Whether the tester has a progress sink (`_progress != null`). */
    const hasSink: bool
    /** The batch identifier drawn once per process (`Guid.NewGuid()`). */
    const batchId: string

    var apiKey: string
    var appName: string
    var testName: string
    var batchName: string
    var serverUrl: string
    var notifyOnCompletion: bool
    var failOnDiff: bool
    var reportImages: bool
    var batch: Option<BatchInfo>
    var eyes: Option<EyesClient>
    var update: ProgressUpdate?

    function Current(): Settings
      reads this
    {
      Settings(apiKey, appName, testName, batchName, serverUrl, notifyOnCompletion,
               failOnDiff, reportImages, batch, eyes)
    }

    /** The settings that shape a file's effects. */
    function Cfg(): Config
      reads this
    {
      Config(appName, testName, reportImages)
    }

    /** A progress record exists only when there is a sink to report to. */
    predicate Valid()
      reads this
    {
      update != null ==> hasSink
    }

    /** The progress record's fields; a missing record reads as a blank one. */
    function Rec(): UpdateValue
      reads this, update
    {
      if update == null then Blank else update.Value()
    }

    /** Starting from record `r0` and sink history `d0`, the effects `es`
        have been produced: the record is `Fold` of them and the sink has
        received their snapshots; without a record nothing is delivered. */
    ghost predicate Follows(r0: UpdateValue, d0: seq<UpdateValue>, es: seq<Effect>)
      reads this, update, env
    {
      if update == null then env.delivered == d0
      else update.Value() == Fold(r0, es, reportImages)
           && env.delivered == d0 + Delivered(r0, es, reportImages)
    }

    /** The four constructors of the source in one: the API key is empty
        unless given, and the progress sink is the console reporter unless
        one (possibly none) is given. */
    constructor (apiKey: string, hasSink: bool, batchId: string)
      ensures this.apiKey == apiKey && this.hasSink == hasSink && this.batchId == batchId
      ensures appName == "" && testName == "" && batchName == DefaultBatchName
      ensures serverUrl == DefaultServerUrl && !notifyOnCompletion && failOnDiff && !reportImages
      ensures batch == None && eyes == None && update == null
      ensures fresh(env) && env.log == [] && env.delivered == []
      ensures Valid()
    {
      this.apiKey := apiKey;
      this.hasSink := hasSink;
      this.batchId := batchId;
      appName, testName := "", "";
      batchName := DefaultBatchName;
      serverUrl := DefaultServerUrl;
      notifyOnCompletion, failOnDiff, reportImages := false, true, false;
      batch, eyes := None, None;
      update := null;
      env := new Environment();
    }

    method ServerUrl(url: string)
      modifies this
      ensures Current() == old(Current()).(serverUrl := url) && update == old(update)
    {
      serverUrl := url;
    }

    method TestName(name: string)
      modifies this
      ensures Current() == old(Current()).(testName := name) && update == old(update)
    {
      testName := name;
    }

    method AppName(name: string)
      modifies this
      ensures Current() == old(Current()).(appName := name) && update == old(update)
    {
      appName := name;
    }

    method ReportImages(b: bool)
      modifies this
      ensures Current() == old(Current()).(reportImages := b) && update == old(update)
    {
      reportImages := b;
    }

    method SetBatch(b: BatchInfo)
      modifies this
      ensures Current() == old(Current()).(batch := Some(b)) && update == old(update)
    {
      batch := Some(b);
    }

    method NotifyOnCompletion(b: bool)
      modifies this
      ensures Current() == old(Current()).(notifyOnCompletion := b) && update == old(update)
    {
      notifyOnCompletion := b;
    }

    method FailOnDiff(b: bool)
      modifies this
      ensures Current() == old(Current()).(failOnDiff := b) && update == old(update)
    {
      failOnDiff := b;
    }

    /** Report progress: with a record, set its value and message, keep an
        error once set, attach the bitmap and its PNG only when images are
        reported, and hand the record to the sink. */
    method ReportProgress(message: string, value: int, bmp: Option<Image>, isError: bool)
      requires Valid()
      modifies update, env
      ensures env.log == old(env.log) + [Progress(Call(message, value, bmp, isError))]
      ensures update != null ==>
                && update.Value() == Reported(old(Rec()), Call(message, value, bmp, isError), reportImages)
                && env.delivered == old(env.delivered) + [update.Value()]
      ensures update == null ==> env.delivered == old(env.delivered)
    {
      if hasSink && update != null {
        update.progressValue := Some(value);
        update.progressMessage := Some(message);
        if !update.hasError {
          update.hasError := isError;
        }
        if reportImages && bmp.Some? {
          update.pngBytes := Some(PngOf(bmp.value));
          update.bitmap := bmp;
        } else {
          update.pngBytes := None;
          update.bitmap := None;
        }
        env.delivered := env.delivered + [update.Value()];
      }
      env.log := env.log + [Progress(Call(message, value, bmp, isError))];
    }

    /** Clear the record (when there is one) before a file. */
    method ResetProgress()
      modifies update, env
      ensures env.log == old(env.log) + [Reset]
      ensures update != null ==> update.Value() == ResetValue
      ensures env.delivered == old(env.delivered)
    {
      if update != null {
        update.progressValue := Some(0);
        update.progressMessage := Some("");
        update.hasError := false;
        update.pngBytes := None;
        update.bitmap := None;
      }
      env.log := env.log + [Reset];
    }

    /** Configure the checking client: create the batch when none was set,
        give it the notification flag, and set the API key when it is not empty. */
    method SetupEyes()
      modifies this
      ensures var b := if old(batch).None? then BatchInfo(batchName, batchId, false) else old(batch).value;
        batch == Some(b.(notifyOnCompletion := notifyOnCompletion))
      ensures eyes == Some(EyesClient(batch.value, if |apiKey| > 0 then Some(apiKey) else None))
      ensures Current() == old(Current()).(batch := batch, eyes := eyes) && update == old(update)
    {
      if batch.None? {
        batch := Some(BatchInfo(batchName, batchId, false));
      }
      batch := Some(batch.value.(notifyOnCompletion := notifyOnCompletion));
      var key := if |apiKey| > 0 then Some(apiKey) else None;
      eyes := Some(EyesClient(batch.value, key));
    }

    /** Start a session (`Eyes?.Open`). */
    method OpenEyes(app: string, test: string)
      requires eyes.Some?
      modifies env
      ensures env.log == old(env.log) + [Eyes(Open(app, test))]
      ensures env.delivered == old(env.delivered)
    {
      env.log := env.log + [Eyes(Open(app, test))];
    }

    method AbortEyes()
      requires eyes.Some?
      modifies env
      ensures env.log == old(env.log) + [Eyes(Abort)]
      ensures env.delivered == old(env.delivered)
    {
      env.log := env.log + [Eyes(Abort)];
    }

    method CloseEyes()
      requires eyes.Some?
      modifies env
      ensures env.log == old(env.log) + [Eyes(Close)]
      ensures env.delivered == old(env.delivered)
    {
      env.log := env.log + [Eyes(Close)];
    }

    /** Submit one visual checkpoint (`Eyes.CheckImage`). */
    method EyesCheckImage(image: Image, tag: string)
      requires eyes.Some?
      modifies env
      ensures env.log == old(env.log) + [Eyes(CheckImage(image, tag))]
      ensures env.delivered == old(env.delivered)
    {
      env.log := env.log + [Eyes(CheckImage(image, tag))];
    }

    /** Close the Office document and quit its application. */
    method QuitOffice()
      modifies env
      ensures env.log == old(env.log) + [ReleaseDocument]
      ensures env.delivered == old(env.delivered)
    {
      env.log := env.log + [ReleaseDocument];
    }

    /** Collect the results of every session of the run. */
    method TearDownEyes()
      modifies env
      ensures env.log == old(env.log) + [Eyes(GetAllTestResults(failOnDiff))]
      ensures env.delivered == old(env.delivered)
    {
      env.log := env.log + [Eyes(GetAllTestResults(failOnDiff))];
    }

    /** Check every Word file, then every Excel file, of a directory, each
        after resetting the record, and collect the results. */
    method CheckOfficeFiles(dir: seq<FileEntry>, b: Backend)
      requires Valid()
      modifies this, env, update
      ensures Valid() && (update != null <==> hasSink)
      ensures old(update) != null ==> update == old(update)
      ensures old(update) == null && update != null ==> fresh(update)
      ensures batch.Some? && batch.value.notifyOnCompletion == notifyOnCompletion
      ensures old(batch).Some? ==> batch.value == old(batch).value.(notifyOnCompletion := notifyOnCompletion)
      ensures eyes == Some(EyesClient(batch.value, if |apiKey| > 0 then Some(apiKey) else None))
      ensures Current() == old(Current()).(batch := batch, eyes := eyes)
      ensures env.log == old(env.log) + RunEffects(Cfg(), OfficeFiles(dir), b, hasSink)
                         + [Eyes(GetAllTestResults(failOnDiff))]
      ensures Follows(old(Rec()), old(env.delivered), RunEffects(Cfg(), OfficeFiles(dir), b, hasSink))
    {
      if hasSink && update == null {
        update := new ProgressUpdate();
      }
      SetupEyes();
      var words := GetFilesByExtensions(dir, Some(WordFileExtensions));
      var sheets := GetFilesByExtensions(dir, Some(ExcelFileExtensions));
      var files := words.value + sheets.value;
      assert files == OfficeFiles(dir);
      CheckFiles(files, b);
      TearDownEyes();
    }

    /** The loop of `CheckOfficeFiles`: every selected file, in order. */
    method CheckFiles(files: seq<FileEntry>, b: Backend)
      requires Valid() && eyes.Some?
      modifies update, env
      ensures env.log == old(env.log) + RunEffects(Cfg(), files, b, update != null)
      ensures Follows(old(Rec()), old(env.delivered), RunEffects(Cfg(), files, b, update != null))
    {
      ghost var r0, d0, l0 := Rec(), env.delivered, env.log;
      ghost var live := update != null;
      assert files[..0] == [];
      assert l0 + [] == l0 && d0 + [] == d0;
      var k := 0;
      while k < |files|
        invariant 0 <= k <= |files|
        invariant env.log == l0 + RunEffects(Cfg(), files[..k], b, live)
        invariant Follows(r0, d0, RunEffects(Cfg(), files[..k], b, live))
        modifies update, env
      {
        CheckNextFile(files, k, b, r0, d0, l0);
        k := k + 1;
      }
      assert files[..k] == files;
    }

    /** One iteration of the loop of `CheckFiles`: file `k` extends the run
        of the files before it. */
    method CheckNextFile(files: seq<FileEntry>, k: nat, b: Backend,
                         ghost r0: UpdateValue, ghost d0: seq<UpdateValue>, ghost l0: seq<Effect>)
      requires Valid() && eyes.Some? && k < |files|
      requires env.log == l0 + RunEffects(Cfg(), files[..k], b, update != null)
      requires Follows(r0, d0, RunEffects(Cfg(), files[..k], b, update != null))
      modifies update, env
      ensures env.log == l0 + RunEffects(Cfg(), files[..k + 1], b, update != null)
      ensures Follows(r0, d0, RunEffects(Cfg(), files[..k + 1], b, update != null))
    {
      ghost var live := update != null;
      ghost var done := RunEffects(Cfg(), files[..k], b, live);
      ghost var x := FileEffects(Cfg(), files[k], b, live);
      RunEffectsSnoc(Cfg(), files, k, b, live);
      ExtendRun(r0, d0, l0, done, x, RunEffects(Cfg(), files[..k + 1], b, live), reportImages);
      CheckFile(files[k], b);
    }

    /** Reset the record, then check the file by its extension. */
    method CheckFile(f: FileEntry, b: Backend)
      requires Valid() && eyes.Some?
      modifies update, env
      ensures env.log == old(env.log) + FileEffects(Cfg(), f, b, update != null)
      ensures Follows(old(Rec()), old(env.delivered), FileEffects(Cfg(), f, b, update != null))
    {
      ghost var r0, d0, l0 := Rec(), env.delivered, env.log;
      ghost var rest: seq<Effect> := [];
      ResetProgress();
      var ext := Extension(f.name);
      if ext in WordFileExtensions {
        rest := WordEffects(Cfg(), f, b.word(f.fullName), b.sessionOpens(f.fullName), update != null, false);
        CheckWordPages(f, b.word(f.fullName), b.sessionOpens(f.fullName));
      } else if ext in ExcelFileExtensions {
        rest := ExcelEffects(Cfg(), f, b.excel(f.fullName), b.sessionOpens(f.fullName));
        CheckSheets(f, b.excel(f.fullName), b.sessionOpens(f.fullName));
      } else {
        assert env.log == env.log + rest;
      }
      assert FileEffects(Cfg(), f, b, update != null) == [Reset] + rest;
      AppendAssoc(l0, [Reset], rest);
      ResetForgets(r0, rest, reportImages);
    }

    /** Check every page of pane 1 of every window of a Word document,
        continuing after a page that fails; abort an open session when the
        record's error flag is set at the end, close it otherwise. */
    method CheckWordPages(file: FileEntry, doc: WordDocument, isOpen: bool)
      requires Valid() && eyes.Some?
      modifies update, env
      ensures env.log == old(env.log) + WordEffects(Cfg(), file, doc, isOpen, update != null, old(Rec()).hasError)
      ensures Follows(old(Rec()), old(env.delivered), WordEffects(Cfg(), file, doc, isOpen, update != null, old(Rec()).hasError))
    {
      ghost var r0, d0, l0 := Rec(), env.delivered, env.log;
      ghost var body := WordBody(Cfg(), file, doc, isOpen);
      CheckWordBody(file, doc, isOpen);
      WordBodyErrorFlag(r0, Cfg(), file, doc, isOpen, reportImages);
      ghost var ending := WordEnding(file.fullName, isOpen, update != null && (r0.hasError || HasError(body)));
      EndWordDocument(file.fullName, isOpen);
      AppendAssoc(l0, body, ending);
      Extend(r0, d0, body, ending, reportImages);
    }

    /** The part of `CheckWordPages` before the session is ended: the first
        report, the session opening and every page of every window. */
    method CheckWordBody(file: FileEntry, doc: WordDocument, isOpen: bool)
      requires Valid() && eyes.Some?
      modifies update, env
      ensures env.log == old(env.log) + WordBody(Cfg(), file, doc, isOpen)
      ensures Follows(old(Rec()), old(env.delivered), WordBody(Cfg(), file, doc, isOpen))
    {
      ghost var r0, d0, l0 := Rec(), env.delivered, env.log;
      var path := file.fullName;
      ReportProgress(CheckingWordMessage(path), 0, None, false);
      var test := Label(testName, file.name);
      var app := Label(appName, WordAppName);
      OpenEyes(app, test);
      ghost var first := Call(CheckingWordMessage(path), 0, None, false);
      ghost var opening := [Progress(first), Eyes(Open(app, test))];
      OpeningRecord(r0, first, Open(app, test), reportImages);
      assert env.log == l0 + opening;
      ghost var windows := WindowsEffects(testName, path, doc.windows, isOpen);
      CheckWindows(path, doc.windows, isOpen);
      AppendAssoc(l0, opening, windows);
      Extend(r0, d0, opening, windows, reportImages);
    }

    /** The window loop of `CheckWordPages`. */
    method CheckWindows(path: string, windows: seq<seq<PageOutcome>>, isOpen: bool)
      requires Valid() && eyes.Some?
      modifies update, env
      ensures env.log == old(env.log) + WindowsEffects(testName, path, windows, isOpen)
      ensures Follows(old(Rec()), old(env.delivered), WindowsEffects(testName, path, windows, isOpen))
    {
      ghost var r0, d0, l0 := Rec(), env.delivered, env.log;
      assert windows[..0] == [];
      assert l0 + [] == l0 && d0 + [] == d0;
      var w := 0;
      while w < |windows|
        invariant 0 <= w <= |windows|
        invariant env.log == l0 + WindowsEffects(testName, path, windows[..w], isOpen)
        invariant Follows(r0, d0, WindowsEffects(testName, path, windows[..w], isOpen))
        modifies update, env
      {
        CheckNextWindow(path, windows, w, isOpen, r0, d0, l0);
        w := w + 1;
      }
      assert windows[..w] == windows;
    }

    /** One iteration of the loop of `CheckWindows`: the pane of window `w`
        extends the windows before it. */
    method CheckNextWindow(path: string, windows: seq<seq<PageOutcome>>, w: nat, isOpen: bool,
                           ghost r0: UpdateValue, ghost d0: seq<UpdateValue>, ghost l0: seq<Effect>)
      requires Valid() && eyes.Some? && w < |windows|
      requires env.log == l0 + WindowsEffects(testName, path, windows[..w], isOpen)
      requires Follows(r0, d0, WindowsEffects(testName, path, windows[..w], isOpen))
      modifies update, env
      ensures env.log == l0 + WindowsEffects(testName, path, windows[..w + 1], isOpen)
      ensures Follows(r0, d0, WindowsEffects(testName, path, windows[..w + 1], isOpen))
    {
      ghost var done := WindowsEffects(testName, path, windows[..w], isOpen);
      ghost var pane := PagesEffects(testName, path, windows[w], |windows[w]|, isOpen);
      CheckPane(path, windows[w], isOpen);
      WindowsEffectsSnoc(testName, path, windows, w, isOpen);
      AppendAssoc(l0, done, pane);
      Extend(r0, d0, done, pane, reportImages);
    }

    /** The inner loop of `CheckWordPages`: every page of one pane, in
        order, each checked and reported at `100 * i / n` even when an
        earlier page failed. */
    method CheckPane(path: string, pages: seq<PageOutcome>, isOpen: bool)
      requires Valid() && eyes.Some?
      modifies update, env
      ensures env.log == old(env.log) + PagesEffects(testName, path, pages, |pages|, isOpen)
      ensures Follows(old(Rec()), old(env.delivered), PagesEffects(testName, path, pages, |pages|, isOpen))
    {
      ghost var r0, d0, l0 := Rec(), env.delivered, env.log;
      assert l0 + [] == l0 && d0 + [] == d0;
      var i := 1;
      while i <= |pages|
        invariant 1 <= i <= |pages| + 1
        invariant env.log == l0 + PagesEffects(testName, path, pages, i - 1, isOpen)
        invariant Follows(r0, d0, PagesEffects(testName, path, pages, i - 1, isOpen))
        modifies update, env
      {
        CheckPage(path, pages, i, isOpen, r0, d0, l0);
        i := i + 1;
      }
    }

    /** Page `i` of a pane, one iteration of the loop of `CheckPane`: check
        it, then report it at `100 * i / n`, extending the pages before it. */
    method CheckPage(path: string, pages: seq<PageOutcome>, i: nat, isOpen: bool,
                     ghost r0: UpdateValue, ghost d0: seq<UpdateValue>, ghost l0: seq<Effect>)
      requires Valid() && eyes.Some? && 1 <= i <= |pages|
      requires env.log == l0 + PagesEffects(testName, path, pages, i - 1, isOpen)
      requires Follows(r0, d0, PagesEffects(testName, path, pages, i - 1, isOpen))
      modifies update, env
      ensures env.log == l0 + PagesEffects(testName, path, pages, i, isOpen)
      ensures Follows(r0, d0, PagesEffects(testName, path, pages, i, isOpen))
    {
      ghost var done := PagesEffects(testName, path, pages, i - 1, isOpen);
      ghost var r1, d1, l1 := Rec(), env.delivered, env.log;
      ghost var check := PageCheckpoint(testName, i, pages[i - 1], isOpen);
      var r := EyesCheckWordPageBits(pages[i - 1], i, isOpen);
      ReportPage(path, i, |pages|, pages[i - 1], isOpen, r);
      ghost var c := PageCall(path, i, |pages|, pages[i - 1], isOpen);
      ReportAfterQuiet(r1, check, c, reportImages);
      AppendAssoc(l1, check, [Progress(c)]);
      AppendAssoc(l0, done, check + [Progress(c)]);
      Extend(r0, d0, done, check + [Progress(c)], reportImages);
    }

    /** The report of page `i` of `n` at `100 * i / n`: the checked page,
        or the error its check threw. */
    method ReportPage(path: string, i: nat, n: nat, page: PageOutcome, isOpen: bool,
                      r: Result<Option<Image>, Exn>)
      requires Valid() && 1 <= i <= n && r == PageResult(page, isOpen)
      modifies update, env
      ensures env.log == old(env.log) + [Progress(PageCall(path, i, n, page, isOpen))]
      ensures update != null ==>
                && update.Value() == Reported(old(Rec()), PageCall(path, i, n, page, isOpen), reportImages)
                && env.delivered == old(env.delivered) + [update.Value()]
      ensures update == null ==> env.delivered == old(env.delivered)
    {
      var value := Percent(i, n);
      match r {
        case Success(bmp) =>
          ReportProgress(CheckedPageMessage(path, i), value, bmp, false);
        case Failure(ex) =>
          ReportProgress(PageErrorMessage(ex), value, None, true);
      }
    }

    /** The end of `CheckWordPages`: abort an open session when the record's
        error flag is set, close it otherwise; release the document and
        report 100%. */
    method EndWordDocument(path: string, isOpen: bool)
      requires Valid() && eyes.Some?
      modifies update, env
      ensures env.log == old(env.log) + WordEnding(path, isOpen, old(update) != null && old(update.hasError))
      ensures Follows(old(Rec()), old(env.delivered), WordEnding(path, isOpen, old(update) != null && old(update.hasError)))
    {
      ghost var r0, d0, l0 := Rec(), env.delivered, env.log;
      ghost var abort := update != null && update.hasError;
      if isOpen {
        if update != null && update.hasError {
          AbortEyes();
        } else {
          CloseEyes();
        }
      }
      ghost var l1 := env.log;
      QuitOffice();
      ReportProgress(DoneWordMessage(path), 100, None, false);
      WordEndingRecord(r0, path, isOpen, abort, reportImages);
      assert l1 == l0 + (if isOpen then [Eyes(if abort then Abort else Close)] else []);
      AppendAssoc(l0, l1[|l0|..], [ReleaseDocument, Progress(Call(DoneWordMessage(path), 100, None, false))]);
    }

    /** Decode a page's bits and, while the session is open, submit them as
        the checkpoint tagged with the configured test name and page number. */
    method EyesCheckWordPageBits(page: PageOutcome, pageIndex: nat, isOpen: bool)
      returns (r: Result<Option<Image>, Exn>)
      requires eyes.Some?
      modifies env
      ensures r == PageResult(page, isOpen)
      ensures r.Failure? <==> PageThrows(page, isOpen)
      ensures env.log == old(env.log) + PageCheckpoint(testName, pageIndex, page, isOpen)
      ensures env.delivered == old(env.delivered)
    {
      match page {
        case Undecodable(e) =>
          r := Failure(e);
          assert env.log + [] == env.log;
        case Rendered(img) =>
          if isOpen {
            EyesCheckImage(img, WordTag(testName, pageIndex));
            r := Success(Some(img));
          } else {
            r := Success(None);
            assert env.log + [] == env.log;
          }
        case Rejected(img, e) =>
          if isOpen {
            EyesCheckImage(img, WordTag(testName, pageIndex));
            r := Failure(e);
          } else {
            r := Success(None);
            assert env.log + [] == env.log;
          }
      }
    }

    /** Check every worksheet of a workbook in order. A sheet without a
        bitmap is reported as an error and the loop goes on; an exception
        ends the loop, aborts an open session and is reported. The workbook
        is released and 100% reported in every case. */
    method CheckSheets(file: FileEntry, wb: Workbook, isOpen: bool)
      requires Valid() && eyes.Some?
      modifies update, env
      ensures env.log == old(env.log) + ExcelEffects(Cfg(), file, wb, isOpen)
      ensures Follows(old(Rec()), old(env.delivered), ExcelEffects(Cfg(), file, wb, isOpen))
    {
      ghost var r0, d0, l0 := Rec(), env.delivered, env.log;
      var path := file.fullName;
      ReportProgress(CheckingExcelMessage(path), 0, None, false);
      var test := Label(testName, file.name);
      var app := Label(appName, ExcelAppName);
      OpenEyes(app, test);
      ghost var first := Call(CheckingExcelMessage(path), 0, None, false);
      ghost var opening := [Progress(first), Eyes(Open(app, test))];
      OpeningRecord(r0, first, Open(app, test), reportImages);
      assert env.log == l0 + opening;
      ghost var run := SheetsRun(path, wb.sheets, |wb.sheets|, isOpen);
      var escape := SheetLoop(path, wb.sheets, isOpen);
      AppendAssoc(l0, opening, run.effects);
      Extend(r0, d0, opening, run.effects, reportImages);
      ghost var exit := WorkbookExit(path, run.escape, isOpen);
      EndWorkbook(path, escape, isOpen);
      AppendAssoc(l0, opening + run.effects, exit);
      Extend(r0, d0, opening + run.effects, exit, reportImages);
    }

    /** How `CheckSheets` leaves the loop, then the release and the 100%
        report that follow in every case. */
    method EndWorkbook(path: string, escape: Option<Escape>, isOpen: bool)
      requires Valid() && eyes.Some?
      modifies update, env
      ensures env.log == old(env.log) + WorkbookExit(path, escape, isOpen)
      ensures Follows(old(Rec()), old(env.delivered), WorkbookExit(path, escape, isOpen))
    {
      ghost var r0, d0, l0 := Rec(), env.delivered, env.log;
      match escape {
        case None =>
          CloseEyes();
        case Some(x) =>
          if isOpen {
            AbortEyes();
          }
          ReportProgress(WorkbookErrorMessage(x.error), x.value, None, true);
      }
      ghost var l1 := env.log;
      QuitOffice();
      ReportProgress(DoneExcelMessage(path), 100, None, false);
      WorkbookExitRecord(r0, path, escape, isOpen, reportImages);
      assert l1 == l0 + LoopExit(escape, isOpen);
      AppendAssoc(l0, LoopExit(escape, isOpen), [ReleaseDocument, Progress(Call(DoneExcelMessage(path), 100, None, false))]);
    }

    /** The sheet loop of `CheckSheets`: sheet `k` of `n` is checked at
        `100 * k / n`; the loop stops at the first exception, which it
        returns with that percentage. */
    method SheetLoop(path: string, sheets: seq<Sheet>, isOpen: bool) returns (escape: Option<Escape>)
      requires Valid() && eyes.Some?
      modifies update, env
      ensures escape == SheetsRun(path, sheets, |sheets|, isOpen).escape
      ensures env.log == old(env.log) + SheetsRun(path, sheets, |sheets|, isOpen).effects
      ensures Follows(old(Rec()), old(env.delivered), SheetsRun(path, sheets, |sheets|, isOpen).effects)
    {
      ghost var r0, d0, l0 := Rec(), env.delivered, env.log;
      assert l0 + [] == l0 && d0 + [] == d0;
      var n := |sheets|;
      var k := 0;
      escape := None;
      while k < n && escape.None?
        invariant 0 <= k <= n
        invariant escape == SheetsRun(path, sheets, k, isOpen).escape
        invariant env.log == l0 + SheetsRun(path, sheets, k, isOpen).effects
        invariant Follows(r0, d0, SheetsRun(path, sheets, k, isOpen).effects)
        modifies update, env
      {
        escape := CheckNextSheet(path, sheets, k, isOpen, r0, d0, l0);
        k := k + 1;
      }
      if escape.Some? {
        SheetsRunStops(path, sheets, k, n, isOpen);
      }
    }

    /** One iteration of the loop of `SheetLoop`: sheet `k + 1` extends the
        sheets before it. */
    method CheckNextSheet(path: string, sheets: seq<Sheet>, k: nat, isOpen: bool,
                          ghost r0: UpdateValue, ghost d0: seq<UpdateValue>, ghost l0: seq<Effect>)
      returns (escape: Option<Escape>)
      requires Valid() && eyes.Some? && k < |sheets| && SheetsRun(path, sheets, k, isOpen).escape.None?
      requires env.log == l0 + SheetsRun(path, sheets, k, isOpen).effects
      requires Follows(r0, d0, SheetsRun(path, sheets, k, isOpen).effects)
      modifies update, env
      ensures escape == SheetsRun(path, sheets, k + 1, isOpen).escape
      ensures env.log == l0 + SheetsRun(path, sheets, k + 1, isOpen).effects
      ensures Follows(r0, d0, SheetsRun(path, sheets, k + 1, isOpen).effects)
    {
      ghost var done := SheetsRun(path, sheets, k, isOpen).effects;
      ghost var here := SheetEffects(path, k + 1, |sheets|, sheets[k], isOpen);
      escape := CheckSheet(path, sheets, k, isOpen);
      SheetsRunSnoc(path, sheets, k, isOpen);
      AppendAssoc(l0, done, here.effects);
      Extend(r0, d0, done, here.effects, reportImages);
    }

    /** Sheet `k + 1` of the loop, at `100 * (k + 1) / n`: capture it, then
        report it, or return the exception that ends the loop. */
    method CheckSheet(path: string, sheets: seq<Sheet>, k: nat, isOpen: bool) returns (escape: Option<Escape>)
      requires Valid() && eyes.Some? && k < |sheets|
      modifies update, env
      ensures escape == SheetEffects(path, k + 1, |sheets|, sheets[k], isOpen).escape
      ensures env.log == old(env.log) + SheetEffects(path, k + 1, |sheets|, sheets[k], isOpen).effects
      ensures Follows(old(Rec()), old(env.delivered), SheetEffects(path, k + 1, |sheets|, sheets[k], isOpen).effects)
    {
      ghost var r0, d0, l0 := Rec(), env.delivered, env.log;
      var n := |sheets|;
      var sheet := sheets[k];
      var value := Percent(k + 1, n);
      ghost var pre := CaptureEffects(sheet, k + 1, value, isOpen);
      var r := EyesCheckExcelSheet(sheet, k + 1, value, isOpen);
      match r {
        case Failure(ex) =>
          escape := Some(Escape(ex, value));
        case Success(None) =>
          escape := None;
          ReportProgress(SheetErrorMessage(sheet.name, k + 1, n), value, None, true);
          ghost var report := Progress(Call(SheetErrorMessage(sheet.name, k + 1, n), value, None, true));
          Snoc(r0, d0, pre, report, reportImages);
          AppendAssoc(l0, pre, [report]);
        case Success(Some(img)) =>
          escape := None;
          ReportProgress(SheetMessage(sheet.name, k + 1, n), value, Some(img), false);
          ghost var report := Progress(Call(SheetMessage(sheet.name, k + 1, n), value, Some(img), false));
          Snoc(r0, d0, pre, report, reportImages);
          AppendAssoc(l0, pre, [report]);
      }
    }

    /** Copy a worksheet's used range to the clipboard as a picture and take
        the bitmap from there: submit it while the session is open, report
        an error when the clipboard holds no bitmap. */
    method EyesCheckExcelSheet(sheet: Sheet, index: nat, value: int, isOpen: bool)
      returns (r: Result<Option<Image>, Exn>)
      requires Valid() && eyes.Some?
      modifies update, env
      ensures r == CaptureResult(sheet.outcome, isOpen)
      ensures r == Success(None) <==> LacksBitmap(sheet.outcome)
      ensures env.log == old(env.log) + CaptureEffects(sheet, index, value, isOpen)
      ensures Follows(old(Rec()), old(env.delivered), CaptureEffects(sheet, index, value, isOpen))
    {
      match sheet.outcome {
        case Captured(img) =>
          SubmitSheet(img, SheetTag(sheet.name, index), isOpen);
          r := Success(Some(img));
        case CaptureRejected(img, e) =>
          SubmitSheet(img, SheetTag(sheet.name, index), isOpen);
          r := if isOpen then Failure(e) else Success(Some(img));
        case NoBitmap =>
          ReportClipboardError(NoImageMessage, value);
          r := Success(None);
        case ClipboardEmpty =>
          ReportClipboardError(ClipboardEmptyMessage, value);
          r := Success(None);
        case CaptureFault(e) =>
          ghost var r0, d0 := Rec(), env.delivered;
          assert Fold(r0, [], reportImages) == r0 && d0 + Delivered(r0, [], reportImages) == d0;
          assert env.log + [] == env.log;
          r := Failure(e);
      }
    }

    /** The checkpoint of a captured sheet, submitted only while the session
        is open. */
    method SubmitSheet(img: Image, tag: string, isOpen: bool)
      requires eyes.Some?
      modifies env
      ensures env.log == old(env.log) + (if isOpen then [Eyes(CheckImage(img, tag))] else [])
      ensures Follows(old(Rec()), old(env.delivered), if isOpen then [Eyes(CheckImage(img, tag))] else [])
    {
      ghost var r0, d0 := Rec(), env.delivered;
      assert Fold(r0, [], reportImages) == r0 && d0 + Delivered(r0, [], reportImages) == d0;
      if isOpen {
        EyesCheckImage(img, tag);
        Snoc(r0, d0, [], Eyes(CheckImage(img, tag)), reportImages);
      } else {
        assert env.log + [] == env.log;
      }
    }

    /** The error report of a sheet whose bitmap is missing from the clipboard. */
    method ReportClipboardError(message: string, value: int)
      requires Valid()
      modifies update, env
      ensures env.log == old(env.log) + [Progress(Call(message, value, None, true))]
      ensures Follows(old(Rec()), old(env.delivered), [Progress(Call(message, value, None, true))])
    {
      ghost var r0, d0 := Rec(), env.delivered;
      ReportProgress(message, value, None, true);
      Single(r0, d0, Progress(Call(message, value, None, true)), reportImages);
    }
  }
}
