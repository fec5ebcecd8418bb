/** What the Office tester does, stated as values (EyesOfficeTester/EyesOfficeTester.cs):
    which files it picks, the labels, tags and percentages it computes, and,
    per file, the exact sequence of effects it produces: progress reports,
    calls into the visual-checking session and the release of the document.
    The rendering backends and the checking service are given as outcomes. */
module OfficeCheck {
  import opened Wrappers
  import opened Text
  import opened ProgressRecord

  // ---------------------------------------------------------------------
  // File selection
  // ---------------------------------------------------------------------

  const WordFileExtensions: seq<string> := [".docx", ".doc", ".docm", ".dotx", ".dotm"]
  const ExcelFileExtensions: seq<string> := [".xls", ".xlsx", ".xlsm", ".xlsb", ".xltx", ".xltm"]

  /** One entry of a directory listing: its full path and its file name. */
  datatype FileEntry = FileEntry(fullName: string, name: string)

  /** The text from the last '.' of `s` to its end, or "" when `s` has no '.'. */
  function DotSuffix(s: string): (r: string)
    ensures r == [] <==> '.' !in s
    ensures r != [] ==> r[0] == '.' && |r| <= |s| && r == s[|s| - |r|..] && '.' !in r[1..]
  {
    if s == [] then []
    else if s[|s| - 1] == '.' then "."
    else
      var r := DotSuffix(s[..|s| - 1]);
      assert s == s[..|s| - 1] + [s[|s| - 1]];
      if r == [] then [] else r + [s[|s| - 1]]
  }

  /** The extension of a file name (`Path.GetExtension`): from the last '.'
      on, and empty when there is no '.' or when the '.' ends the name. */
  function Extension(name: string): (ext: string)
    ensures ext == [] <==> ('.' !in name || name[|name| - 1] == '.')
    ensures ext != [] ==> 2 <= |ext| <= |name| && ext[0] == '.' && ext == name[|name| - |ext|..] && '.' !in ext[1..]
  {
    var r := DotSuffix(name);
    if r == "." then "" else r
  }

  predicate IsWordFile(f: FileEntry)
  {
    Extension(f.name) in WordFileExtensions
  }

  predicate IsExcelFile(f: FileEntry)
  {
    Extension(f.name) in ExcelFileExtensions
  }

  /** No extension is both a Word and an Excel extension. */
  lemma KindsDisjoint(f: FileEntry)
    ensures !(IsWordFile(f) && IsExcelFile(f))
  {
    ListsDisjoint(Extension(f.name));
  }

  /** Every Word extension starts ".d", every Excel extension ".x". */
  lemma ListsDisjoint(e: string)
    ensures !(e in WordFileExtensions && e in ExcelFileExtensions)
  {
    if e in WordFileExtensions {
      assert |e| > 1 && e[1] == 'd';
    }
  }

  /** `a` is `b` with some elements left out, the rest kept in order. */
  ghost predicate IsSubsequence<T>(a: seq<T>, b: seq<T>)
    decreases |b|
  {
    if a == [] then true
    else if b == [] then false
    else if a[0] == b[0] then IsSubsequence(a[1..], b[1..])
    else IsSubsequence(a, b[1..])
  }

  /** The entries whose extension is listed, in enumeration order. */
  function Matching(files: seq<FileEntry>, extensions: seq<string>): (r: seq<FileEntry>)
    ensures forall f :: f in r <==> f in files && Extension(f.name) in extensions
    ensures forall f :: multiset(r)[f] == if Extension(f.name) in extensions then multiset(files)[f] else 0
    ensures IsSubsequence(r, files)
  {
    if files == [] then []
    else
      var rest := Matching(files[1..], extensions);
      assert files == [files[0]] + files[1..];
      if Extension(files[0].name) in extensions then [files[0]] + rest
      else rest
  }

  datatype ArgumentError = ArgumentNull(paramName: string)

  /** `GetFilesByExtensions`: a null extension list throws; otherwise the
      entries whose extension equals a listed one (case-sensitive). */
  function GetFilesByExtensions(dir: seq<FileEntry>, extensions: Option<seq<string>>)
    : (r: Result<seq<FileEntry>, ArgumentError>)
    ensures extensions.None? ==> r == Failure(ArgumentNull("extensions"))
    ensures extensions.Some? ==> r.Success?
    ensures extensions.Some? ==> forall f :: f in r.value <==> f in dir && Extension(f.name) in extensions.value
    ensures extensions.Some? ==> forall f ::
      multiset(r.value)[f] == if Extension(f.name) in extensions.value then multiset(dir)[f] else 0
    ensures extensions.Some? ==> IsSubsequence(r.value, dir)
  {
    match extensions
    case None => Failure(ArgumentNull("extensions"))
    case Some(exts) => Success(Matching(dir, exts))
  }

  /** `r` is Word files up to `k` and Excel files from `k` on, each part in
      the order of `dir`. */
  ghost predicate WordsThenSheets(r: seq<FileEntry>, dir: seq<FileEntry>, k: nat)
  {
    && k <= |r|
    && IsSubsequence(r[..k], dir) && IsSubsequence(r[k..], dir)
    && (forall i :: 0 <= i < k ==> IsWordFile(r[i]))
    && (forall i :: k <= i < |r| ==> IsExcelFile(r[i]))
  }

  /** The list `CheckOfficeFiles` builds: the Word matches, then the Excel matches. */
  function OfficeFiles(dir: seq<FileEntry>): (r: seq<FileEntry>)
    ensures forall f :: multiset(r)[f] == if IsWordFile(f) || IsExcelFile(f) then multiset(dir)[f] else 0
    ensures forall f :: f in r <==> f in dir && (IsWordFile(f) || IsExcelFile(f))
    ensures exists k :: WordsThenSheets(r, dir, k)
    ensures forall i, j :: 0 <= i < j < |r| ==> !(IsExcelFile(r[i]) && IsWordFile(r[j]))
  {
    var words := Matching(dir, WordFileExtensions);
    var sheets := Matching(dir, ExcelFileExtensions);
    WordsThenSheetsConcat(dir, words, sheets);
    words + sheets
  }

  /** The Word matches followed by the Excel matches. */
  lemma WordsThenSheetsConcat(dir: seq<FileEntry>, words: seq<FileEntry>, sheets: seq<FileEntry>)
    requires forall f :: f in words ==> IsWordFile(f)
    requires forall f :: f in sheets ==> IsExcelFile(f)
    requires forall f :: multiset(words)[f] == if IsWordFile(f) then multiset(dir)[f] else 0
    requires forall f :: multiset(sheets)[f] == if IsExcelFile(f) then multiset(dir)[f] else 0
    requires IsSubsequence(words, dir) && IsSubsequence(sheets, dir)
    ensures var r := words + sheets;
      && (forall f :: multiset(r)[f] == if IsWordFile(f) || IsExcelFile(f) then multiset(dir)[f] else 0)
      && (forall f :: f in r <==> f in dir && (IsWordFile(f) || IsExcelFile(f)))
      && WordsThenSheets(r, dir, |words|)
      && (forall i, j :: 0 <= i < j < |r| ==> !(IsExcelFile(r[i]) && IsWordFile(r[j])))
  {
    var r := words + sheets;
    forall f
      ensures multiset(r)[f] == if IsWordFile(f) || IsExcelFile(f) then multiset(dir)[f] else 0
    {
      KindsDisjoint(f);
    }
    forall f
      ensures f in r <==> f in dir && (IsWordFile(f) || IsExcelFile(f))
    {
      assert f in r <==> multiset(r)[f] > 0;
      assert f in dir <==> multiset(dir)[f] > 0;
    }
    assert r[..|words|] == words && r[|words|..] == sheets;
    forall i | 0 <= i < |r|
      ensures if i < |words| then IsWordFile(r[i]) && !IsExcelFile(r[i]) else IsExcelFile(r[i]) && !IsWordFile(r[i])
    {
      KindsDisjoint(r[i]);
      if i < |words| {
        assert r[i] == words[i] && words[i] in words;
      } else {
        assert r[i] == sheets[i - |words|] && sheets[i - |words|] in sheets;
      }
    }
  }

  /** Every entry the tester picks is dispatched to a checker, and only those. */
  lemma DispatchCoversSelection(dir: seq<FileEntry>, f: FileEntry)
    requires f in OfficeFiles(dir)
    ensures IsWordFile(f) != IsExcelFile(f)
  {
    KindsDisjoint(f);
  }

  // ---------------------------------------------------------------------
  // Labels, tags, messages and percentages
  // ---------------------------------------------------------------------

  const WordAppName := "Microsoft Word"
  const ExcelAppName := "Microsoft Excel"

  /** `String.IsNullOrEmpty(preferred) ? fallback : preferred`. */
  function Label(preferred: string, fallback: string): (r: string)
    ensures preferred != "" ==> r == preferred
    ensures preferred == "" ==> r == fallback
    ensures r != "" <==> preferred != "" || fallback != ""
  {
    if preferred == "" then fallback else preferred
  }

  /** The checkpoint tag of Word page `page`. It is built from the configured
      test name even when that is empty. */
  function WordTag(testName: string, page: nat): (t: string)
    ensures var d := NatToString(page);
      && |t| == |testName| + 8 + |d| && t[..|testName|] == testName
      && t[|testName|..|testName| + 8] == " - Page " && t[|t| - |d|..] == d
  {
    testName + " - Page " + NatToString(page)
  }

  /** The checkpoint tag of a worksheet: its name, '-', its index. */
  function SheetTag(name: string, index: nat): (t: string)
    ensures var d := NatToString(index);
      |t| == |name| + 1 + |d| && t[..|name|] == name && t[|name|] == '-' && t[|t| - |d|..] == d &&
      forall k :: |t| - |d| <= k < |t| ==> '0' <= t[k] <= '9'
  {
    var d := NatToString(index);
    var t := name + "-" + d;
    assert forall k :: |t| - |d| <= k < |t| ==> t[k] == d[k - (|t| - |d|)];
    t
  }

  /** Two pages of one document never share a checkpoint tag. */
  lemma WordTagsDistinct(testName: string, i: nat, j: nat)
    ensures WordTag(testName, i) == WordTag(testName, j) ==> i == j
  {
    var p := testName + " - Page ";
    if WordTag(testName, i) == WordTag(testName, j) {
      assert NatToString(i) == WordTag(testName, i)[|p|..];
      assert NatToString(j) == WordTag(testName, j)[|p|..];
      NatToStringInjective(i, j);
    }
  }

  /** A sheet tag determines the sheet's name and index. */
  lemma {:induction false} SheetTagsDistinct(n1: string, i: nat, n2: string, j: nat)
    ensures SheetTag(n1, i) == SheetTag(n2, j) ==> n1 == n2 && i == j
  {
    var d1, d2 := NatToString(i), NatToString(j);
    var t := SheetTag(n1, i);
    if t == SheetTag(n2, j) {
      assert |d1| == |d2|;
      assert d1 == t[|t| - |d1|..];
      assert d2 == t[|t| - |d2|..];
      NatToStringInjective(i, j);
      assert n1 == t[..|n1|];
      assert n2 == t[..|n2|];
    }
  }

  function CheckingWordMessage(path: string): string { "Checking Word Document: " + path + "..." }
  function CheckedPageMessage(path: string, page: nat): string
  {
    "Checked Word Document: " + path + " - Page " + NatToString(page) + "..."
  }
  function DoneWordMessage(path: string): string { "Done checking Word Document: " + path + "." }
  function CheckingExcelMessage(path: string): string { "Checking Excel Document: " + path + "..." }
  function SheetMessage(name: string, index: nat, count: nat): string
  {
    "Checking: " + name + " (" + NatToString(index) + "/" + NatToString(count) + ") "
  }
  function SheetErrorMessage(name: string, index: nat, count: nat): string
  {
    "ERROR Checking: " + name + " (" + NatToString(index) + "/" + NatToString(count) + ")"
  }
  const NoImageMessage := "No image in Clipboard !!"
  const ClipboardEmptyMessage := "Clipboard Empty !!"
  function DoneExcelMessage(path: string): string { "Done checking Excel Workbook: " + path + "." }

  /** An exception: its message and its stack trace (opaque text). */
  datatype Exn = Exn(message: string, stackTrace: string)

  function PageErrorMessage(e: Exn): string { "ERROR: " + e.message }
  function WorkbookErrorMessage(e: Exn): string { "ERROR: " + e.message + "\n" + e.stackTrace }

  /** Integer division of a non-negative number, as repeated subtraction. */
  function Quotient(a: nat, n: nat): nat
    requires 0 < n
    decreases a
  {
    if a < n then 0 else 1 + Quotient(a - n, n)
  }

  lemma {:induction false} QuotientBounds(a: nat, n: nat)
    requires 0 < n
    ensures Quotient(a, n) * n <= a < Quotient(a, n) * n + n
    decreases a
  {
    if a >= n {
      QuotientBounds(a - n, n);
      assert Quotient(a, n) * n == Quotient(a - n, n) * n + n;
    }
  }

  lemma MulMonotone(x: int, y: int, n: int)
    requires x <= y && 0 < n
    ensures x * n <= y * n
  {
  }

  /** `Quotient` is integer division. */
  lemma QuotientIsDivision(a: nat, n: nat)
    requires 0 < n
    ensures Quotient(a, n) == a / n
  {
    var q := Quotient(a, n);
    QuotientBounds(a, n);
    assert a == (a / n) * n + a % n;
    if q < a / n {
      MulMonotone(q + 1, a / n, n);
      assert false;
    } else if q > a / n {
      MulMonotone(a / n + 1, q, n);
      assert false;
    }
  }

  lemma {:induction false} QuotientMonotone(a: nat, b: nat, n: nat)
    requires a <= b && 0 < n
    ensures Quotient(a, n) <= Quotient(b, n)
    decreases a
  {
    if a >= n {
      QuotientMonotone(a - n, b - n, n);
    }
  }

  lemma {:induction false} QuotientOfMultiple(k: nat, n: nat)
    requires 0 < n
    ensures Quotient(k * n, n) == k
    decreases k
  {
    if k > 0 {
      assert k * n - n == (k - 1) * n;
      QuotientOfMultiple(k - 1, n);
    }
  }

  /** The percentage of element `i` of `n`: `100 * i / n` in integer arithmetic. */
  function Percent(i: int, n: int): (p: int)
    requires 0 <= i <= n && 0 < n
    ensures 0 <= p <= 100
    ensures i == n ==> p == 100
    ensures i == 0 ==> p == 0
  {
    QuotientMonotone(100 * i, 100 * n, n);
    QuotientOfMultiple(100, n);
    Quotient(100 * i, n)
  }

  /** `Percent` is the source's integer expression `100 * i / n`. */
  lemma PercentIsIntegerDivision(i: int, n: int)
    requires 0 <= i <= n && 0 < n
    ensures Percent(i, n) == 100 * i / n
  {
    QuotientIsDivision(100 * i, n);
  }

  /** Later pages never report a smaller percentage. */
  lemma PercentMonotone(i: int, j: int, n: int)
    requires 0 <= i <= j <= n && 0 < n
    ensures Percent(i, n) <= Percent(j, n)
  {
    QuotientMonotone(100 * i, 100 * j, n);
  }

  // ---------------------------------------------------------------------
  // Effects and the progress record
  // ---------------------------------------------------------------------

  /** The arguments of one `ReportProgress(message, value, bmp, isError)` call. */
  datatype Call = Call(message: string, value: int, bmp: Option<Image>, isError: bool)

  /** Calls into the visual-checking session (and the batch teardown). */
  datatype EyesCall =
    | Open(appName: string, testName: string)
    | CheckImage(image: Image, tag: string)
    | Close
    | Abort
    | GetAllTestResults(failOnDiff: bool)

  /** What the tester does, in order: reset the record, report progress,
      call the session, release the Office document and application. */
  datatype Effect =
    | Reset
    | Progress(call: Call)
    | Eyes(eyes: EyesCall)
    | ReleaseDocument

  /** The tester's settings that shape the effects of a file. */
  datatype Config = Config(appName: string, testName: string, reportImages: bool)

  /** The record after one `ReportProgress` call. */
  function Reported(u: UpdateValue, c: Call, reportImages: bool): (v: UpdateValue)
    ensures v.progressMessage == Some(c.message) && v.progressValue == Some(c.value)
    ensures v.hasError == (u.hasError || c.isError)
    ensures v.bitmap == (if reportImages then c.bmp else None)
    ensures v.pngBytes == (if v.bitmap.Some? then Some(PngOf(v.bitmap.value)) else None)
  {
    var attach := reportImages && c.bmp.Some?;
    UpdateValue(
      Some(c.message),
      Some(c.value),
      if attach then c.bmp else None,
      if attach then Some(PngOf(c.bmp.value)) else None,
      if u.hasError then true else c.isError)
  }

  /** The record after `ResetProgress`. */
  const ResetValue: UpdateValue := UpdateValue(Some(""), Some(0), None, None, false)

  function Step(u: UpdateValue, e: Effect, reportImages: bool): UpdateValue
  {
    match e
    case Reset => ResetValue
    case Progress(c) => Reported(u, c, reportImages)
    case _ => u
  }

  /** The record after a sequence of effects. */
  function Fold(u: UpdateValue, es: seq<Effect>, reportImages: bool): UpdateValue
  {
    if es == [] then u
    else Step(Fold(u, es[..|es| - 1], reportImages), es[|es| - 1], reportImages)
  }

  /** The snapshots handed to the progress sink: one per progress report,
      each the record just after that report. */
  function Delivered(u: UpdateValue, es: seq<Effect>, reportImages: bool): seq<UpdateValue>
  {
    if es == [] then []
    else
      Delivered(u, es[..|es| - 1], reportImages)
      + (if es[|es| - 1].Progress? then [Fold(u, es, reportImages)] else [])
  }

  predicate IsErrorReport(e: Effect)
  {
    e.Progress? && e.call.isError
  }

  predicate HasError(es: seq<Effect>)
  {
    exists k :: 0 <= k < |es| && IsErrorReport(es[k])
  }

  lemma HasErrorAppend(a: seq<Effect>, b: seq<Effect>)
    ensures HasError(a + b) == (HasError(a) || HasError(b))
  {
    if HasError(a + b) {
      var k :| 0 <= k < |a + b| && IsErrorReport((a + b)[k]);
      if k >= |a| { assert IsErrorReport(b[k - |a|]); }
    }
    if HasError(b) {
      var k :| 0 <= k < |b| && IsErrorReport(b[k]);
      assert (a + b)[|a| + k] == b[k];
    }
    if HasError(a) {
      var k :| 0 <= k < |a| && IsErrorReport(a[k]);
      assert (a + b)[k] == a[k];
    }
  }

  lemma {:induction false} FoldAppend(u: UpdateValue, a: seq<Effect>, b: seq<Effect>, ri: bool)
    ensures Fold(u, a + b, ri) == Fold(Fold(u, a, ri), b, ri)
    decreases |b|
  {
    if b != [] {
      assert (a + b)[..|a + b| - 1] == a + b[..|b| - 1];
      FoldAppend(u, a, b[..|b| - 1], ri);
    } else {
      assert a + b == a;
    }
  }

  lemma {:induction false} DeliveredAppend(u: UpdateValue, a: seq<Effect>, b: seq<Effect>, ri: bool)
    ensures Delivered(u, a + b, ri) == Delivered(u, a, ri) + Delivered(Fold(u, a, ri), b, ri)
    decreases |b|
  {
    if b != [] {
      assert (a + b)[..|a + b| - 1] == a + b[..|b| - 1];
      DeliveredAppend(u, a, b[..|b| - 1], ri);
      FoldAppend(u, a, b, ri);
    } else {
      assert a + b == a;
    }
  }

  /** Sticky error: without a reset in between, the record's error flag is
      its old value or'ed with the error flags of every report. */
  lemma {:induction false} FoldErrorSticky(u: UpdateValue, es: seq<Effect>, ri: bool)
    requires Reset !in es
    ensures Fold(u, es, ri).hasError == (u.hasError || HasError(es))
    decreases |es|
  {
    if es != [] {
      var init := es[..|es| - 1];
      assert es == init + [es[|es| - 1]];
      FoldErrorSticky(u, init, ri);
      HasErrorAppend(init, [es[|es| - 1]]);
    }
  }

  /** Every snapshot that carries an error leaves the error in the final record. */
  lemma {:induction false} DeliveredErrorReachesEnd(u: UpdateValue, es: seq<Effect>, ri: bool)
    requires Reset !in es
    ensures forall k :: (0 <= k < |Delivered(u, es, ri)| && Delivered(u, es, ri)[k].hasError
                         ==> Fold(u, es, ri).hasError)
    decreases |es|
  {
    if es != [] {
      var init := es[..|es| - 1];
      assert es == init + [es[|es| - 1]];
      DeliveredErrorReachesEnd(u, init, ri);
      FoldErrorSticky(u, init, ri);
      FoldErrorSticky(u, es, ri);
      HasErrorAppend(init, [es[|es| - 1]]);
    }
  }

  /** Once a delivered snapshot has `hasError`, every later one has it too. */
  lemma {:induction false} DeliveredErrorsSticky(u: UpdateValue, es: seq<Effect>, ri: bool)
    requires Reset !in es
    ensures forall j, k :: (0 <= j <= k < |Delivered(u, es, ri)| && Delivered(u, es, ri)[j].hasError
                            ==> Delivered(u, es, ri)[k].hasError)
    decreases |es|
  {
    if es != [] {
      var init := es[..|es| - 1];
      assert es == init + [es[|es| - 1]];
      DeliveredErrorsSticky(u, init, ri);
      DeliveredErrorReachesEnd(u, init, ri);
      FoldErrorSticky(u, init, ri);
      FoldErrorSticky(u, es, ri);
      HasErrorAppend(init, [es[|es| - 1]]);
    }
  }

  lemma AppendAssoc<T>(a: seq<T>, b: seq<T>, c: seq<T>)
    ensures (a + b) + c == a + (b + c)
  {
  }

  /** Effects `x` after effects `e`, both from record `u` and sink history
      `d`: the record and the sink continue from where `e` left them. */
  lemma Extend(u: UpdateValue, d: seq<UpdateValue>, e: seq<Effect>, x: seq<Effect>, ri: bool)
    ensures Fold(u, e + x, ri) == Fold(Fold(u, e, ri), x, ri)
    ensures d + Delivered(u, e + x, ri) == (d + Delivered(u, e, ri)) + Delivered(Fold(u, e, ri), x, ri)
  {
    FoldAppend(u, e, x, ri);
    DeliveredAppend(u, e, x, ri);
    AppendAssoc(d, Delivered(u, e, ri), Delivered(Fold(u, e, ri), x, ri));
  }

  /** A log, a record and snapshots that followed `done` follow `done + x`
      once the effects `x` have followed them. */
  lemma ExtendRun(u: UpdateValue, d: seq<UpdateValue>, l: seq<Effect>, done: seq<Effect>, x: seq<Effect>,
                  all: seq<Effect>, ri: bool)
    requires all == done + x
    ensures (l + done) + x == l + all
    ensures Fold(u, all, ri) == Fold(Fold(u, done, ri), x, ri)
    ensures d + Delivered(u, all, ri) == (d + Delivered(u, done, ri)) + Delivered(Fold(u, done, ri), x, ri)
  {
    AppendAssoc(l, done, x);
    Extend(u, d, done, x, ri);
  }

  /** One more effect: the record takes one step, and a report is delivered. */
  lemma Snoc(u: UpdateValue, d: seq<UpdateValue>, es: seq<Effect>, e: Effect, ri: bool)
    ensures Fold(u, es + [e], ri) == Step(Fold(u, es, ri), e, ri)
    ensures d + Delivered(u, es + [e], ri)
            == (d + Delivered(u, es, ri)) + (if e.Progress? then [Step(Fold(u, es, ri), e, ri)] else [])
  {
    assert (es + [e])[..|es|] == es;
    var tail := if e.Progress? then [Step(Fold(u, es, ri), e, ri)] else [];
    AppendAssoc(d, Delivered(u, es, ri), tail);
  }

  /** A single effect: one step of the record, and a snapshot when it is a
      progress report. */
  lemma Single(u: UpdateValue, d: seq<UpdateValue>, e: Effect, ri: bool)
    ensures Fold(u, [e], ri) == Step(u, e, ri)
    ensures d + Delivered(u, [e], ri) == d + (if e.Progress? then [Step(u, e, ri)] else [])
  {
    assert [e][..0] == [];
  }

  /** Session calls and the release of the document leave the record alone. */
  predicate Quiet(e: Effect)
  {
    e.Eyes? || e.ReleaseDocument?
  }

  /** Quiet effects change neither the record nor what the sink has received. */
  lemma {:induction false} QuietExtend(u: UpdateValue, d: seq<UpdateValue>, es: seq<Effect>, x: seq<Effect>, ri: bool)
    requires forall k :: 0 <= k < |x| ==> Quiet(x[k])
    ensures Fold(u, es + x, ri) == Fold(u, es, ri)
    ensures d + Delivered(u, es + x, ri) == d + Delivered(u, es, ri)
    decreases |x|
  {
    if x != [] {
      var init := x[..|x| - 1];
      QuietExtend(u, d, es, init, ri);
      assert es + x == (es + init) + [x[|x| - 1]];
      Snoc(u, d, es + init, x[|x| - 1], ri);
    } else {
      assert es + x == es;
    }
  }

  /** Quiet effects and then one report: the record is that report applied
      to where it started, and the sink receives exactly that snapshot. */
  lemma ReportAfterQuiet(u: UpdateValue, quiet: seq<Effect>, c: Call, ri: bool)
    requires forall k :: 0 <= k < |quiet| ==> Quiet(quiet[k])
    ensures Fold(u, quiet + [Progress(c)], ri) == Reported(u, c, ri)
    ensures Delivered(u, quiet + [Progress(c)], ri) == [Reported(u, c, ri)]
  {
    QuietExtend(u, [], [], quiet, ri);
    assert [] + quiet == quiet;
    Snoc(u, [], quiet, Progress(c), ri);
  }

  /** The progress calls among a sequence of effects. */
  function Calls(es: seq<Effect>): seq<Call>
  {
    if es == [] then []
    else Calls(es[..|es| - 1]) + (if es[|es| - 1].Progress? then [es[|es| - 1].call] else [])
  }

  lemma {:induction false} CallsAppend(a: seq<Effect>, b: seq<Effect>)
    ensures Calls(a + b) == Calls(a) + Calls(b)
    decreases |b|
  {
    if b != [] {
      assert (a + b)[..|a + b| - 1] == a + b[..|b| - 1];
      CallsAppend(a, b[..|b| - 1]);
    } else {
      assert a + b == a;
    }
  }

  lemma CallsOfOne(e: Effect)
    ensures Calls([e]) == if e.Progress? then [e.call] else []
  {
    assert [e][..0] == [];
  }

  lemma CallsOfTwo(e: Effect, e': Effect)
    ensures Calls([e, e']) == Calls([e]) + (if e'.Progress? then [e'.call] else [])
  {
    assert [e, e'][..1] == [e];
  }

  lemma {:induction false} HasErrorCalls(es: seq<Effect>)
    ensures HasError(es) <==> exists k :: 0 <= k < |Calls(es)| && Calls(es)[k].isError
    decreases |es|
  {
    if es != [] {
      var init := es[..|es| - 1];
      assert es == init + [es[|es| - 1]];
      HasErrorCalls(init);
      HasErrorAppend(init, [es[|es| - 1]]);
      var cs := Calls(es);
      var last := es[|es| - 1];
      assert cs == Calls(init) + (if last.Progress? then [last.call] else []);
      if IsErrorReport(last) {
        assert cs[|cs| - 1] == last.call;
      }
      if HasError([last]) {
        assert IsErrorReport([last][0]);
      }
      if exists k :: 0 <= k < |Calls(init)| && Calls(init)[k].isError {
        var k :| 0 <= k < |Calls(init)| && Calls(init)[k].isError;
        assert cs[k] == Calls(init)[k];
      }
      if exists k :: 0 <= k < |cs| && cs[k].isError {
        var k :| 0 <= k < |cs| && cs[k].isError;
        if k < |Calls(init)| {
          assert Calls(init)[k] == cs[k];
        } else {
          assert IsErrorReport(last);
          assert [last][0] == last;
        }
      }
    }
  }

  // ---------------------------------------------------------------------
  // A Word document
  // ---------------------------------------------------------------------

  /** How checking one Word page goes: its bits decode and are checked, they
      do not decode (the image stream throws), or the service rejects the
      checkpoint (only possible while the session is open). */
  datatype PageOutcome =
    | Rendered(image: Image)
    | Undecodable(error: Exn)
    | Rejected(image: Image, error: Exn)

  /** A Word document as the tester walks it: per window, the pages of pane 1. */
  datatype WordDocument = WordDocument(windows: seq<seq<PageOutcome>>)

  /** Whether checking the page throws. */
  predicate PageThrows(page: PageOutcome, isOpen: bool)
  {
    page.Undecodable? || (page.Rejected? && isOpen)
  }

  /** The checkpoint `EyesCheckWordPageBits` submits for page `i`: one when
      the page's bits decode and the session is open. */
  function PageCheckpoint(testName: string, i: nat, page: PageOutcome, isOpen: bool): seq<Effect>
  {
    if isOpen && !page.Undecodable? then [Eyes(CheckImage(page.image, WordTag(testName, i)))] else []
  }

  /** What `EyesCheckWordPageBits` yields: the exception it throws, or the
      bitmap it checked (none when the session is not open). */
  function PageResult(page: PageOutcome, isOpen: bool): Result<Option<Image>, Exn>
  {
    if PageThrows(page, isOpen) then Failure(page.error)
    else Success(if isOpen then Some(page.image) else None)
  }

  /** The report for page `i` of `n`, at `100 * i / n`: the checked page, or
      the error the page threw. */
  function PageCall(path: string, i: nat, n: nat, page: PageOutcome, isOpen: bool): Call
    requires 1 <= i <= n
  {
    match PageResult(page, isOpen)
    case Success(bmp) => Call(CheckedPageMessage(path, i), Percent(i, n), bmp, false)
    case Failure(e) => Call(PageErrorMessage(e), Percent(i, n), None, true)
  }

  /** The effects of page `i` of `n`: its checkpoint, then its report. */
  function PageEffects(testName: string, path: string, i: nat, n: nat, page: PageOutcome, isOpen: bool)
    : seq<Effect>
    requires 1 <= i <= n
  {
    PageCheckpoint(testName, i, page, isOpen) + [Progress(PageCall(path, i, n, page, isOpen))]
  }

  /** The effects of the first `k` pages of a pane. */
  function PagesEffects(testName: string, path: string, pages: seq<PageOutcome>, k: nat, isOpen: bool)
    : seq<Effect>
    requires k <= |pages|
  {
    if k == 0 then []
    else
      PagesEffects(testName, path, pages, k - 1, isOpen)
      + PageEffects(testName, path, k, |pages|, pages[k - 1], isOpen)
  }

  /** The effects of every page of every window. */
  function WindowsEffects(testName: string, path: string, windows: seq<seq<PageOutcome>>, isOpen: bool)
    : seq<Effect>
  {
    if windows == [] then []
    else
      var last := windows[|windows| - 1];
      WindowsEffects(testName, path, windows[..|windows| - 1], isOpen)
      + PagesEffects(testName, path, last, |last|, isOpen)
  }

  /** The first report, the session opening and every page of a Word file. */
  function WordBody(c: Config, file: FileEntry, doc: WordDocument, isOpen: bool): seq<Effect>
  {
    [Progress(Call(CheckingWordMessage(file.fullName), 0, None, false)),
     Eyes(Open(Label(c.appName, WordAppName), Label(c.testName, file.name)))]
    + WindowsEffects(c.testName, file.fullName, doc.windows, isOpen)
  }

  /** The end of a Word file: abort or close an open session, release the
      document, report 100%. */
  function WordEnding(path: string, isOpen: bool, abort: bool): seq<Effect>
  {
    (if isOpen then [Eyes(if abort then Abort else Close)] else [])
    + [ReleaseDocument, Progress(Call(DoneWordMessage(path), 100, None, false))]
  }

  /** One more window. */
  lemma WindowsEffectsSnoc(testName: string, path: string, windows: seq<seq<PageOutcome>>, w: nat, isOpen: bool)
    requires w < |windows|
    ensures WindowsEffects(testName, path, windows[..w + 1], isOpen)
            == WindowsEffects(testName, path, windows[..w], isOpen)
               + PagesEffects(testName, path, windows[w], |windows[w]|, isOpen)
  {
    assert windows[..w + 1][..w] == windows[..w];
  }

  /** Opening a file: a report, then the session opening. Only the report
      reaches the record and the sink. */
  lemma OpeningRecord(u: UpdateValue, c: Call, o: EyesCall, ri: bool)
    ensures Fold(u, [Progress(c), Eyes(o)], ri) == Reported(u, c, ri)
    ensures Delivered(u, [Progress(c), Eyes(o)], ri) == [Reported(u, c, ri)]
  {
    ReportAfterQuiet(u, [], c, ri);
    assert [] + [Progress(c)] == [Progress(c)];
    Snoc(u, [], [Progress(c)], Eyes(o), ri);
  }

  /** At the end of a Word file's pages, the record's error flag is set
      exactly when it was set before the file or some page threw. */
  lemma WordBodyErrorFlag(u: UpdateValue, c: Config, file: FileEntry, doc: WordDocument, isOpen: bool, ri: bool)
    ensures HasError(WordBody(c, file, doc, isOpen)) == AnyPageThrows(doc.windows, isOpen)
    ensures Fold(u, WordBody(c, file, doc, isOpen), ri).hasError
            == (u.hasError || HasError(WordBody(c, file, doc, isOpen)))
  {
    var body := WordBody(c, file, doc, isOpen);
    var head := body[..2];
    var rest := WindowsEffects(c.testName, file.fullName, doc.windows, isOpen);
    WindowsErrors(c.testName, file.fullName, doc.windows, isOpen);
    assert body == head + rest;
    assert !HasError(head) by {
      forall k | 0 <= k < |head| ensures !IsErrorReport(head[k]) { }
    }
    HasErrorAppend(head, rest);
    assert Reset !in rest;
    FoldErrorSticky(u, body, ri);
  }

  /** The end of a Word file leaves the record as the 100% report makes it,
      and that report is the only snapshot the sink receives. */
  lemma WordEndingRecord(u: UpdateValue, path: string, isOpen: bool, abort: bool, ri: bool)
    ensures Fold(u, WordEnding(path, isOpen, abort), ri)
            == Reported(u, Call(DoneWordMessage(path), 100, None, false), ri)
    ensures Delivered(u, WordEnding(path, isOpen, abort), ri)
            == [Reported(u, Call(DoneWordMessage(path), 100, None, false), ri)]
  {
    var quiet := (if isOpen then [Eyes(if abort then Abort else Close)] else []) + [ReleaseDocument];
    assert WordEnding(path, isOpen, abort) == quiet + [Progress(Call(DoneWordMessage(path), 100, None, false))];
    ReportAfterQuiet(u, quiet, Call(DoneWordMessage(path), 100, None, false), ri);
  }

  /** Checking a Word file. `live` says whether the tester has a progress
      record; `priorError` is that record's error flag when the file starts.
      The session is aborted exactly when the record's flag is set at the end. */
  function WordEffects(c: Config, file: FileEntry, doc: WordDocument, isOpen: bool, live: bool, priorError: bool)
    : (es: seq<Effect>)
    ensures |es| >= 4 && Reset !in es
    ensures es[0] == Progress(Call(CheckingWordMessage(file.fullName), 0, None, false))
    ensures es[1] == Eyes(Open(Label(c.appName, WordAppName), Label(c.testName, file.name)))
    ensures es[|es| - 2] == ReleaseDocument
    ensures es[|es| - 1] == Progress(Call(DoneWordMessage(file.fullName), 100, None, false))
  {
    var body := WordBody(c, file, doc, isOpen);
    var abort := live && (priorError || HasError(body));
    WindowsErrors(c.testName, file.fullName, doc.windows, isOpen);
    Framed(Progress(Call(CheckingWordMessage(file.fullName), 0, None, false)),
      Eyes(Open(Label(c.appName, WordAppName), Label(c.testName, file.name))),
      WindowsEffects(c.testName, file.fullName, doc.windows, isOpen),
      if isOpen then [Eyes(if abort then Abort else Close)] else [],
      Progress(Call(DoneWordMessage(file.fullName), 100, None, false)));
    body + WordEnding(file.fullName, isOpen, abort)
  }

  /** A report and a session call, the middle effects, quiet closing
      effects, the release and a last effect: the frame of a file. */
  lemma Framed(first: Effect, second: Effect, mid: seq<Effect>, quiet: seq<Effect>, last: Effect)
    requires first != Reset && second != Reset && last != Reset
    requires OnlyReportsAndCheckpoints(mid) && Reset !in quiet
    ensures var es := ([first, second] + mid) + (quiet + [ReleaseDocument, last]);
      && |es| >= 4 + |quiet| && Reset !in es
      && es[0] == first && es[1] == second && es[|es| - 2] == ReleaseDocument && es[|es| - 1] == last
  {
  }

  /** Each page yields exactly one report: at `100 * i / n`, an error exactly
      when the page threw. */
  lemma PageReport(testName: string, path: string, i: nat, n: nat, page: PageOutcome, isOpen: bool)
    requires 1 <= i <= n
    ensures var cs := Calls(PageEffects(testName, path, i, n, page, isOpen));
      |cs| == 1 && cs[0].value == Percent(i, n) && cs[0].isError == PageThrows(page, isOpen)
  {
    var here := PageEffects(testName, path, i, n, page, isOpen);
    var report := here[|here| - 1];
    assert report.Progress? && report.call.value == Percent(i, n) && report.call.isError == PageThrows(page, isOpen);
    if |here| == 2 {
      assert !here[0].Progress?;
      CallsOfTwo(here[0], report);
      assert here == [here[0], report];
    } else {
      CallsOfOne(report);
      assert here == [report];
    }
  }

  /** Continue-on-error: every page of a pane gets exactly one report, in
      page order, at `100 * i / n`, flagged as an error exactly when that
      page threw. */
  lemma {:induction false} PaneReports(testName: string, path: string, pages: seq<PageOutcome>, k: nat, isOpen: bool)
    requires k <= |pages|
    ensures var cs := Calls(PagesEffects(testName, path, pages, k, isOpen));
      && |cs| == k
      && (forall j :: 0 <= j < k ==> cs[j].value == Percent(j + 1, |pages|))
      && (forall j :: 0 <= j < k ==> cs[j].isError == PageThrows(pages[j], isOpen))
    decreases k
  {
    if k > 0 {
      var prev := PagesEffects(testName, path, pages, k - 1, isOpen);
      var here := PageEffects(testName, path, k, |pages|, pages[k - 1], isOpen);
      PaneReports(testName, path, pages, k - 1, isOpen);
      CallsAppend(prev, here);
      PageReport(testName, path, k, |pages|, pages[k - 1], isOpen);
      assert PagesEffects(testName, path, pages, k, isOpen) == prev + here;
      ReportsSnoc(Calls(prev), Calls(here), pages, k, isOpen);
    }
  }

  /** One more page report after those of the first `k - 1` pages. */
  lemma ReportsSnoc(cp: seq<Call>, ch: seq<Call>, pages: seq<PageOutcome>, k: nat, isOpen: bool)
    requires 0 < k <= |pages| && |cp| == k - 1 && |ch| == 1
    requires forall j :: 0 <= j < k - 1 ==> cp[j].value == Percent(j + 1, |pages|)
    requires forall j :: 0 <= j < k - 1 ==> cp[j].isError == PageThrows(pages[j], isOpen)
    requires ch[0].value == Percent(k, |pages|) && ch[0].isError == PageThrows(pages[k - 1], isOpen)
    ensures var cs := cp + ch;
      && |cs| == k
      && (forall j :: 0 <= j < k ==> cs[j].value == Percent(j + 1, |pages|))
      && (forall j :: 0 <= j < k ==> cs[j].isError == PageThrows(pages[j], isOpen))
  {
    var cs := cp + ch;
    forall j | 0 <= j < k
      ensures cs[j].value == Percent(j + 1, |pages|) && cs[j].isError == PageThrows(pages[j], isOpen)
    {
      if j < k - 1 { assert cs[j] == cp[j]; } else { assert cs[j] == ch[0]; }
    }
  }

  /** The percentages a pane reports never decrease, and the last one is 100. */
  lemma PanePercentsNondecreasing(testName: string, path: string, pages: seq<PageOutcome>, isOpen: bool)
    ensures var cs := Calls(PagesEffects(testName, path, pages, |pages|, isOpen));
      && |cs| == |pages|
      && (forall i, j :: 0 <= i <= j < |cs| ==> 0 <= cs[i].value <= cs[j].value <= 100)
      && (|cs| > 0 ==> cs[|cs| - 1].value == 100)
  {
    var cs := Calls(PagesEffects(testName, path, pages, |pages|, isOpen));
    PaneReports(testName, path, pages, |pages|, isOpen);
    forall i, j | 0 <= i <= j < |cs|
      ensures 0 <= cs[i].value <= cs[j].value <= 100
    {
      PercentMonotone(i + 1, j + 1, |pages|);
    }
  }

  /** The page effects only report progress and submit checkpoints. */
  ghost predicate OnlyReportsAndCheckpoints(es: seq<Effect>)
  {
    forall e :: e in es ==> e.Progress? || (e.Eyes? && e.eyes.CheckImage?)
  }

  ghost predicate AnyPageThrows(windows: seq<seq<PageOutcome>>, isOpen: bool)
  {
    exists w, i :: 0 <= w < |windows| && 0 <= i < |windows[w]| && PageThrows(windows[w][i], isOpen)
  }

  lemma {:induction false} PaneErrors(testName: string, path: string, pages: seq<PageOutcome>, isOpen: bool)
    ensures var es := PagesEffects(testName, path, pages, |pages|, isOpen);
      && OnlyReportsAndCheckpoints(es)
      && (HasError(es) <==> exists i :: 0 <= i < |pages| && PageThrows(pages[i], isOpen))
  {
    var es := PagesEffects(testName, path, pages, |pages|, isOpen);
    PaneReports(testName, path, pages, |pages|, isOpen);
    HasErrorCalls(es);
    PaneShape(testName, path, pages, |pages|, isOpen);
  }

  lemma {:induction false} PaneShape(testName: string, path: string, pages: seq<PageOutcome>, k: nat, isOpen: bool)
    requires k <= |pages|
    ensures OnlyReportsAndCheckpoints(PagesEffects(testName, path, pages, k, isOpen))
    decreases k
  {
    if k > 0 {
      PaneShape(testName, path, pages, k - 1, isOpen);
    }
  }

  lemma {:induction false} WindowsErrors(testName: string, path: string, windows: seq<seq<PageOutcome>>, isOpen: bool)
    ensures var es := WindowsEffects(testName, path, windows, isOpen);
      && OnlyReportsAndCheckpoints(es)
      && (HasError(es) <==> AnyPageThrows(windows, isOpen))
    decreases |windows|
  {
    if windows != [] {
      var init := windows[..|windows| - 1];
      var last := windows[|windows| - 1];
      WindowsErrors(testName, path, init, isOpen);
      PaneErrors(testName, path, last, isOpen);
      HasErrorAppend(WindowsEffects(testName, path, init, isOpen), PagesEffects(testName, path, last, |last|, isOpen));
      if AnyPageThrows(windows, isOpen) {
        var w, i :| 0 <= w < |windows| && 0 <= i < |windows[w]| && PageThrows(windows[w][i], isOpen);
        if w < |init| {
          assert init[w][i] == windows[w][i];
        }
      }
      if AnyPageThrows(init, isOpen) {
        var w, i :| 0 <= w < |init| && 0 <= i < |init[w]| && PageThrows(init[w][i], isOpen);
        assert windows[w][i] == init[w][i];
      }
      if exists i :: 0 <= i < |last| && PageThrows(last[i], isOpen) {
        var i :| 0 <= i < |last| && PageThrows(last[i], isOpen);
        assert windows[|windows| - 1][i] == last[i];
      }
    }
  }

  /** The end of a Word file: an open session is aborted exactly when the
      record exists and its sticky flag is set (set before, or set by a
      page that threw), and closed otherwise; a session that is not open is
      neither. The document is released and one 100% report comes last. */
  lemma WordSessionEnding(c: Config, file: FileEntry, doc: WordDocument, isOpen: bool, live: bool, priorError: bool)
    ensures var es := WordEffects(c, file, doc, isOpen, live, priorError);
      var failed := live && (priorError || AnyPageThrows(doc.windows, isOpen));
      && (Eyes(Abort) in es <==> isOpen && failed)
      && (Eyes(Close) in es <==> isOpen && !failed)
  {
    var pages := WindowsEffects(c.testName, file.fullName, doc.windows, isOpen);
    var head := [Progress(Call(CheckingWordMessage(file.fullName), 0, None, false)),
                 Eyes(Open(Label(c.appName, WordAppName), Label(c.testName, file.name)))];
    var abort := live && (priorError || HasError(head + pages));
    WindowsErrors(c.testName, file.fullName, doc.windows, isOpen);
    HasErrorAppend(head, pages);
    assert !HasError(head) by {
      forall k | 0 <= k < |head| ensures !IsErrorReport(head[k]) { }
    }
    SessionCallsOfExit(head[0], head[1], pages,
      if isOpen then [Eyes(if abort then Abort else Close)] else [],
      Progress(Call(DoneWordMessage(file.fullName), 100, None, false)));
  }

  /** In the frame of a file, the session is closed or aborted only by the
      closing effects. */
  lemma SessionCallsOfExit(first: Effect, second: Effect, mid: seq<Effect>, exit: seq<Effect>, last: Effect)
    requires first.Progress? && second.Eyes? && second.eyes.Open? && last.Progress?
    requires OnlyReportsAndCheckpoints(mid)
    ensures var es := ([first, second] + mid) + (exit + [ReleaseDocument, last]);
      && (Eyes(Close) in es <==> Eyes(Close) in exit)
      && (Eyes(Abort) in es <==> Eyes(Abort) in exit)
  {
    assert Eyes(Abort) !in mid && Eyes(Close) !in mid;
  }

  /** Quiet effects hold no progress calls. */
  lemma {:induction false} CallsOfQuiet(x: seq<Effect>)
    requires forall k :: 0 <= k < |x| ==> Quiet(x[k])
    ensures Calls(x) == []
    decreases |x|
  {
    if x != [] {
      CallsOfQuiet(x[..|x| - 1]);
    }
  }

  /** A report, a quiet effect, a middle part, quiet effects and a report:
      the calls are the two reports around the middle part's calls. */
  lemma CallsFramed(first: Call, o: Effect, mid: seq<Effect>, quiet: seq<Effect>, last: Call)
    requires Quiet(o) && forall k :: 0 <= k < |quiet| ==> Quiet(quiet[k])
    ensures Calls([Progress(first), o] + mid + (quiet + [Progress(last)])) == [first] + Calls(mid) + [last]
  {
    CallsOfTwo(Progress(first), o);
    CallsOfOne(Progress(first));
    CallsAppend([Progress(first), o], mid);
    CallsAppend(quiet, [Progress(last)]);
    CallsOfQuiet(quiet);
    CallsOfOne(Progress(last));
    CallsAppend([Progress(first), o] + mid, quiet + [Progress(last)]);
  }

  /** The progress calls of a Word file: the opening 0% report, the pages'
      reports, the 100% report. */
  lemma WordCalls(c: Config, file: FileEntry, doc: WordDocument, isOpen: bool, live: bool, priorError: bool)
    ensures Calls(WordEffects(c, file, doc, isOpen, live, priorError))
      == [Call(CheckingWordMessage(file.fullName), 0, None, false)]
         + Calls(WindowsEffects(c.testName, file.fullName, doc.windows, isOpen))
         + [Call(DoneWordMessage(file.fullName), 100, None, false)]
  {
    var body := WordBody(c, file, doc, isOpen);
    var abort := live && (priorError || HasError(body));
    var quiet := (if isOpen then [Eyes(if abort then Abort else Close)] else []) + [ReleaseDocument];
    assert WordEnding(file.fullName, isOpen, abort)
      == quiet + [Progress(Call(DoneWordMessage(file.fullName), 100, None, false))];
    CallsFramed(Call(CheckingWordMessage(file.fullName), 0, None, false),
      Eyes(Open(Label(c.appName, WordAppName), Label(c.testName, file.name))),
      WindowsEffects(c.testName, file.fullName, doc.windows, isOpen),
      quiet, Call(DoneWordMessage(file.fullName), 100, None, false));
  }

  /** In a document with one window, the percentages of a Word file never
      decrease: 0 first, then the pages' percentages, then 100. */
  lemma SingleWindowPercents(c: Config, file: FileEntry, doc: WordDocument, isOpen: bool, live: bool, priorError: bool)
    requires |doc.windows| <= 1
    ensures var cs := Calls(WordEffects(c, file, doc, isOpen, live, priorError));
      forall i, j :: 0 <= i <= j < |cs| ==> 0 <= cs[i].value <= cs[j].value <= 100
  {
    WordCalls(c, file, doc, isOpen, live, priorError);
    var ps := Calls(WindowsEffects(c.testName, file.fullName, doc.windows, isOpen));
    if |doc.windows| == 1 {
      var pages := doc.windows[0];
      assert doc.windows[..0] == [];
      assert WindowsEffects(c.testName, file.fullName, doc.windows, isOpen)
        == PagesEffects(c.testName, file.fullName, pages, |pages|, isOpen);
      PanePercentsNondecreasing(c.testName, file.fullName, pages, isOpen);
    }
    FramedPercents(Call(CheckingWordMessage(file.fullName), 0, None, false), ps,
      Call(DoneWordMessage(file.fullName), 100, None, false));
  }

  /** Non-decreasing percentages between a 0% and a 100% report stay
      non-decreasing. */
  lemma FramedPercents(first: Call, ps: seq<Call>, last: Call)
    requires first.value == 0 && last.value == 100
    requires forall i, j :: 0 <= i <= j < |ps| ==> 0 <= ps[i].value <= ps[j].value <= 100
    ensures var cs := [first] + ps + [last];
      forall i, j :: 0 <= i <= j < |cs| ==> 0 <= cs[i].value <= cs[j].value <= 100
  {
    var cs := [first] + ps + [last];
    forall i, j | 0 <= i <= j < |cs|
      ensures 0 <= cs[i].value <= cs[j].value <= 100
    {
      if 0 < i { assert i - 1 < |ps| ==> cs[i] == ps[i - 1]; }
      if j < |cs| - 1 { assert 0 < j ==> cs[j] == ps[j - 1]; }
    }
  }

  /** The same pane shown in two windows: its pages' effects twice. */
  lemma WindowsTwice(testName: string, path: string, pages: seq<PageOutcome>, isOpen: bool)
    ensures WindowsEffects(testName, path, [pages, pages], isOpen)
      == PagesEffects(testName, path, pages, |pages|, isOpen) + PagesEffects(testName, path, pages, |pages|, isOpen)
  {
    assert [pages, pages][..1] == [pages] && [pages][..0] == [];
    assert WindowsEffects(testName, path, [pages], isOpen) == [] + PagesEffects(testName, path, pages, |pages|, isOpen);
  }

  /** With two windows the percentages start over: for two windows of two
      pages each, the reports go 0, 50, 100, 50, 100, 100. */
  lemma TwoWindowsRestart(c: Config, file: FileEntry, pages: seq<PageOutcome>, isOpen: bool, live: bool, priorError: bool)
    requires |pages| == 2
    ensures var cs := Calls(WordEffects(c, file, WordDocument([pages, pages]), isOpen, live, priorError));
      |cs| == 6 && cs[2].value == 100 && cs[3].value == 50
  {
    var one := PagesEffects(c.testName, file.fullName, pages, 2, isOpen);
    WordCalls(c, file, WordDocument([pages, pages]), isOpen, live, priorError);
    WindowsTwice(c.testName, file.fullName, pages, isOpen);
    CallsAppend(one, one);
    PaneReports(c.testName, file.fullName, pages, 2, isOpen);
    PercentIsIntegerDivision(1, 2);
  }

  // ---------------------------------------------------------------------
  // An Excel workbook
  // ---------------------------------------------------------------------

  /** How checking one worksheet goes: the clipboard holds its bitmap, the
      service rejects that checkpoint (only while the session is open), the
      clipboard holds no bitmap, the clipboard is empty, or copying the
      picture throws. */
  datatype SheetOutcome =
    | Captured(image: Image)
    | CaptureRejected(image: Image, error: Exn)
    | NoBitmap
    | ClipboardEmpty
    | CaptureFault(error: Exn)

  /** A worksheet: its name and how checking it goes. Its index is its
      1-based position in the workbook. */
  datatype Sheet = Sheet(name: string, outcome: SheetOutcome)

  datatype Workbook = Workbook(sheets: seq<Sheet>)

  /** An exception that leaves the sheet loop, with the percentage last computed. */
  datatype Escape = Escape(error: Exn, value: int)

  /** The effects of a stretch of the sheet loop and the exception that ended it, if any. */
  datatype SheetRun = SheetRun(effects: seq<Effect>, escape: Option<Escape>)

  predicate SheetThrows(o: SheetOutcome, isOpen: bool)
  {
    o.CaptureFault? || (o.CaptureRejected? && isOpen)
  }

  predicate LacksBitmap(o: SheetOutcome)
  {
    o.NoBitmap? || o.ClipboardEmpty?
  }

  /** What `EyesCheckExcelSheet` does for sheet `k` before it returns: the
      checkpoint when the clipboard holds a bitmap and the session is open,
      or an error report at `value` when the clipboard has no bitmap. */
  function CaptureEffects(sheet: Sheet, k: nat, value: int, isOpen: bool): seq<Effect>
  {
    match sheet.outcome
    case Captured(img) => if isOpen then [Eyes(CheckImage(img, SheetTag(sheet.name, k)))] else []
    case CaptureRejected(img, _) => if isOpen then [Eyes(CheckImage(img, SheetTag(sheet.name, k)))] else []
    case NoBitmap => [Progress(Call(NoImageMessage, value, None, true))]
    case ClipboardEmpty => [Progress(Call(ClipboardEmptyMessage, value, None, true))]
    case CaptureFault(_) => []
  }

  /** What `EyesCheckExcelSheet` yields: the exception it throws, or the
      bitmap (none when the clipboard had none). */
  function CaptureResult(o: SheetOutcome, isOpen: bool): Result<Option<Image>, Exn>
  {
    match o
    case Captured(img) => Success(Some(img))
    case CaptureRejected(img, e) => if isOpen then Failure(e) else Success(Some(img))
    case NoBitmap => Success(None)
    case ClipboardEmpty => Success(None)
    case CaptureFault(e) => Failure(e)
  }

  /** The effects of sheet `k` of `n`: the capture, then a report at
      `100 * k / n`, an error when there was no bitmap; an exception ends
      the loop instead. A missing bitmap is thus reported twice. */
  function SheetEffects(path: string, k: nat, n: nat, sheet: Sheet, isOpen: bool): (r: SheetRun)
    requires 1 <= k <= n
    ensures r.escape.Some? <==> SheetThrows(sheet.outcome, isOpen)
    ensures r.escape.Some? ==> r.escape.value.value == Percent(k, n)
    ensures OnlyReportsAndCheckpoints(r.effects)
    ensures LacksBitmap(sheet.outcome) ==>
              |r.effects| == 2 &&
              forall e :: e in r.effects ==> e.Progress? && e.call.isError && e.call.value == Percent(k, n)
    ensures !LacksBitmap(sheet.outcome) ==> !HasError(r.effects)
  {
    var value := Percent(k, n);
    var pre := CaptureEffects(sheet, k, value, isOpen);
    match CaptureResult(sheet.outcome, isOpen)
    case Failure(e) => SheetRun(pre, Some(Escape(e, value)))
    case Success(None) =>
      SheetRun(pre + [Progress(Call(SheetErrorMessage(sheet.name, k, n), value, None, true))], None)
    case Success(Some(img)) =>
      SheetRun(pre + [Progress(Call(SheetMessage(sheet.name, k, n), value, Some(img), false))], None)
  }

  /** The sheet loop over the first `k` sheets; it stops at the first exception. */
  function SheetsRun(path: string, sheets: seq<Sheet>, k: nat, isOpen: bool): SheetRun
    requires k <= |sheets|
  {
    if k == 0 then SheetRun([], None)
    else
      var prev := SheetsRun(path, sheets, k - 1, isOpen);
      if prev.escape.Some? then prev
      else
        var here := SheetEffects(path, k, |sheets|, sheets[k - 1], isOpen);
        SheetRun(prev.effects + here.effects, here.escape)
  }

  /** One more sheet, while no exception has ended the loop. */
  lemma SheetsRunSnoc(path: string, sheets: seq<Sheet>, k: nat, isOpen: bool)
    requires k < |sheets| && SheetsRun(path, sheets, k, isOpen).escape.None?
    ensures var here := SheetEffects(path, k + 1, |sheets|, sheets[k], isOpen);
      SheetsRun(path, sheets, k + 1, isOpen)
      == SheetRun(SheetsRun(path, sheets, k, isOpen).effects + here.effects, here.escape)
  {
  }

  /** How the sheet loop is left: a normal exit closes the session; an
      exception aborts an open session and is reported as an error. */
  function LoopExit(escape: Option<Escape>, isOpen: bool): seq<Effect>
  {
    match escape
    case None => [Eyes(Close)]
    case Some(x) =>
      (if isOpen then [Eyes(Abort)] else [])
      + [Progress(Call(WorkbookErrorMessage(x.error), x.value, None, true))]
  }

  /** The effects after the sheet loop: its exit, the release and the 100% report. */
  function WorkbookExit(path: string, escape: Option<Escape>, isOpen: bool): seq<Effect>
  {
    LoopExit(escape, isOpen) + [ReleaseDocument, Progress(Call(DoneExcelMessage(path), 100, None, false))]
  }

  /** After the loop the record takes the workbook error (when an exception
      ended the loop) and then the 100% report; the sink receives exactly
      those snapshots. */
  lemma WorkbookExitRecord(u: UpdateValue, path: string, escape: Option<Escape>, isOpen: bool, ri: bool)
    ensures var done := Call(DoneExcelMessage(path), 100, None, false);
      match escape
      case None =>
        && Fold(u, WorkbookExit(path, escape, isOpen), ri) == Reported(u, done, ri)
        && Delivered(u, WorkbookExit(path, escape, isOpen), ri) == [Reported(u, done, ri)]
      case Some(x) =>
        var failed := Reported(u, Call(WorkbookErrorMessage(x.error), x.value, None, true), ri);
        && Fold(u, WorkbookExit(path, escape, isOpen), ri) == Reported(failed, done, ri)
        && Delivered(u, WorkbookExit(path, escape, isOpen), ri) == [failed, Reported(failed, done, ri)]
  {
    var done := Call(DoneExcelMessage(path), 100, None, false);
    match escape
    case None =>
      assert WorkbookExit(path, escape, isOpen) == [Eyes(Close), ReleaseDocument] + [Progress(done)];
      ReportAfterQuiet(u, [Eyes(Close), ReleaseDocument], done, ri);
    case Some(x) =>
      FailedExitRecord(u, path, x, isOpen, ri);
  }

  lemma FailedExitRecord(u: UpdateValue, path: string, x: Escape, isOpen: bool, ri: bool)
    ensures var done := Call(DoneExcelMessage(path), 100, None, false);
      var failed := Reported(u, Call(WorkbookErrorMessage(x.error), x.value, None, true), ri);
      && Fold(u, WorkbookExit(path, Some(x), isOpen), ri) == Reported(failed, done, ri)
      && Delivered(u, WorkbookExit(path, Some(x), isOpen), ri) == [failed, Reported(failed, done, ri)]
  {
    var done := Call(DoneExcelMessage(path), 100, None, false);
    var err := Call(WorkbookErrorMessage(x.error), x.value, None, true);
    var abort: seq<Effect> := if isOpen then [Eyes(Abort)] else [];
    var failed := Reported(u, err, ri);
    var front := abort + [Progress(err)];
    var back := [ReleaseDocument] + [Progress(done)];
    ReportAfterQuiet(u, abort, err, ri);
    ReportAfterQuiet(failed, [ReleaseDocument], done, ri);
    assert WorkbookExit(path, Some(x), isOpen) == front + back;
    FoldAppend(u, front, back, ri);
    DeliveredAppend(u, front, back, ri);
  }

  /** Checking an Excel workbook: the loop, its exit, then the release and
      the 100% report, which always follow. */
  function ExcelEffects(c: Config, file: FileEntry, wb: Workbook, isOpen: bool): (es: seq<Effect>)
    ensures |es| >= 5 && Reset !in es
    ensures es[0] == Progress(Call(CheckingExcelMessage(file.fullName), 0, None, false))
    ensures es[1] == Eyes(Open(Label(c.appName, ExcelAppName), Label(c.testName, file.name)))
    ensures es[|es| - 2] == ReleaseDocument
    ensures es[|es| - 1] == Progress(Call(DoneExcelMessage(file.fullName), 100, None, false))
  {
    var run := SheetsRun(file.fullName, wb.sheets, |wb.sheets|, isOpen);
    SheetsRunShape(file.fullName, wb.sheets, |wb.sheets|, isOpen);
    Framed(Progress(Call(CheckingExcelMessage(file.fullName), 0, None, false)),
      Eyes(Open(Label(c.appName, ExcelAppName), Label(c.testName, file.name))),
      run.effects, LoopExit(run.escape, isOpen),
      Progress(Call(DoneExcelMessage(file.fullName), 100, None, false)));
    [Progress(Call(CheckingExcelMessage(file.fullName), 0, None, false)),
     Eyes(Open(Label(c.appName, ExcelAppName), Label(c.testName, file.name)))]
    + run.effects
    + WorkbookExit(file.fullName, run.escape, isOpen)
  }

  /** Once the loop has met an exception, later sheets change nothing. */
  lemma {:induction false} SheetsRunStops(path: string, sheets: seq<Sheet>, k: nat, m: nat, isOpen: bool)
    requires k <= m <= |sheets|
    requires SheetsRun(path, sheets, k, isOpen).escape.Some?
    ensures SheetsRun(path, sheets, m, isOpen) == SheetsRun(path, sheets, k, isOpen)
    decreases m - k
  {
    if k < m {
      SheetsRunStops(path, sheets, k, m - 1, isOpen);
    }
  }

  /** The loop ends with an exception exactly when some sheet throws, and its
      effects only report progress and submit checkpoints. */
  lemma {:induction false} SheetsRunShape(path: string, sheets: seq<Sheet>, k: nat, isOpen: bool)
    requires k <= |sheets|
    ensures var run := SheetsRun(path, sheets, k, isOpen);
      && OnlyReportsAndCheckpoints(run.effects)
      && (run.escape.Some? <==> exists j :: 0 <= j < k && SheetThrows(sheets[j].outcome, isOpen))
    decreases k
  {
    if k > 0 {
      var prev := SheetsRun(path, sheets, k - 1, isOpen);
      SheetsRunShape(path, sheets, k - 1, isOpen);
      if prev.escape.None? {
        var here := SheetEffects(path, k, |sheets|, sheets[k - 1], isOpen);
        assert SheetsRun(path, sheets, k, isOpen) == SheetRun(prev.effects + here.effects, here.escape);
      }
    }
  }

  /** When no sheet throws, the loop reports an error exactly when some
      sheet lacked a bitmap. */
  lemma {:induction false} SheetsRunErrors(path: string, sheets: seq<Sheet>, k: nat, isOpen: bool)
    requires k <= |sheets|
    ensures var run := SheetsRun(path, sheets, k, isOpen);
      run.escape.None? ==>
        (HasError(run.effects) <==> exists j :: 0 <= j < k && LacksBitmap(sheets[j].outcome))
    decreases k
  {
    if k > 0 {
      var prev := SheetsRun(path, sheets, k - 1, isOpen);
      SheetsRunErrors(path, sheets, k - 1, isOpen);
      if prev.escape.None? {
        var here := SheetEffects(path, k, |sheets|, sheets[k - 1], isOpen);
        assert SheetsRun(path, sheets, k, isOpen) == SheetRun(prev.effects + here.effects, here.escape);
        HasErrorAppend(prev.effects, here.effects);
        if LacksBitmap(sheets[k - 1].outcome) {
          assert here.effects[0] in here.effects;
          assert IsErrorReport(here.effects[0]);
        }
      }
    }
  }

  ghost predicate AnySheetThrows(sheets: seq<Sheet>, isOpen: bool)
  {
    exists j :: 0 <= j < |sheets| && SheetThrows(sheets[j].outcome, isOpen)
  }

  ghost predicate AnySheetLacksBitmap(sheets: seq<Sheet>)
  {
    exists j :: 0 <= j < |sheets| && LacksBitmap(sheets[j].outcome)
  }

  /** The loop's exit closes exactly when nothing escaped, aborts exactly
      when something escaped an open session, and reports an error exactly
      when something escaped. */
  lemma LoopExitShape(escape: Option<Escape>, isOpen: bool)
    ensures var x := LoopExit(escape, isOpen);
      && (Eyes(Close) in x <==> escape.None?)
      && (Eyes(Abort) in x <==> escape.Some? && isOpen)
      && (HasError(x) <==> escape.Some?)
  {
    var x := LoopExit(escape, isOpen);
    if escape.Some? {
      assert IsErrorReport(x[|x| - 1]);
    } else {
      assert x == [Eyes(Close)];
      assert !IsErrorReport(x[0]);
    }
  }

  /** The end of a workbook: the session is closed exactly when no exception
      left the sheet loop, even when sheets reported missing bitmaps; it is
      aborted exactly when an exception left the loop while it was open. */
  lemma ExcelSessionEnding(c: Config, file: FileEntry, wb: Workbook, isOpen: bool)
    ensures var es := ExcelEffects(c, file, wb, isOpen);
      && (Eyes(Close) in es <==> !AnySheetThrows(wb.sheets, isOpen))
      && (Eyes(Abort) in es <==> isOpen && AnySheetThrows(wb.sheets, isOpen))
  {
    var run := SheetsRun(file.fullName, wb.sheets, |wb.sheets|, isOpen);
    SheetsRunShape(file.fullName, wb.sheets, |wb.sheets|, isOpen);
    LoopExitShape(run.escape, isOpen);
    SessionCallsOfExit(Progress(Call(CheckingExcelMessage(file.fullName), 0, None, false)),
      Eyes(Open(Label(c.appName, ExcelAppName), Label(c.testName, file.name))),
      run.effects, LoopExit(run.escape, isOpen),
      Progress(Call(DoneExcelMessage(file.fullName), 100, None, false)));
  }

  /** A workbook's reports carry an error exactly when an exception left the
      loop or some sheet lacked a bitmap; a missing bitmap does not stop the loop. */
  lemma ExcelErrors(c: Config, file: FileEntry, wb: Workbook, isOpen: bool)
    ensures HasError(ExcelEffects(c, file, wb, isOpen))
            <==> AnySheetThrows(wb.sheets, isOpen) || AnySheetLacksBitmap(wb.sheets)
  {
    var run := SheetsRun(file.fullName, wb.sheets, |wb.sheets|, isOpen);
    SheetsRunShape(file.fullName, wb.sheets, |wb.sheets|, isOpen);
    SheetsRunErrors(file.fullName, wb.sheets, |wb.sheets|, isOpen);
    LoopExitShape(run.escape, isOpen);
    var head := [Progress(Call(CheckingExcelMessage(file.fullName), 0, None, false)),
                 Eyes(Open(Label(c.appName, ExcelAppName), Label(c.testName, file.name)))];
    var exit := LoopExit(run.escape, isOpen);
    var tail := [ReleaseDocument, Progress(Call(DoneExcelMessage(file.fullName), 100, None, false))];
    assert !HasError(head) by {
      forall k | 0 <= k < |head| ensures !IsErrorReport(head[k]) { }
    }
    assert !HasError(tail) by {
      forall k | 0 <= k < |tail| ensures !IsErrorReport(tail[k]) { }
    }
    HasErrorAppend(head, run.effects);
    HasErrorAppend(exit, tail);
    HasErrorAppend(head + run.effects, WorkbookExit(file.fullName, run.escape, isOpen));
  }

  // ---------------------------------------------------------------------
  // A file and a run
  // ---------------------------------------------------------------------

  /** What the backends do with a file: the Word document or workbook they
      open for a path, and whether the checking session is open after
      `Open` for that path. */
  datatype Backend = Backend(
    word: string -> WordDocument,
    excel: string -> Workbook,
    sessionOpens: string -> bool)

  /** `CheckFile`: reset the record, then dispatch on the exact extension. */
  function FileEffects(c: Config, f: FileEntry, b: Backend, live: bool): (es: seq<Effect>)
    ensures es != [] && es[0] == Reset
  {
    [Reset]
    + if IsWordFile(f) then WordEffects(c, f, b.word(f.fullName), b.sessionOpens(f.fullName), live, false)
      else if IsExcelFile(f) then ExcelEffects(c, f, b.excel(f.fullName), b.sessionOpens(f.fullName))
      else []
  }

  /** A file's effects: one reset first and no other; anything after it
      exactly when the file is a Word or Excel file, and then a 0% report
      that is not an error comes next. */
  lemma FileEffectsShape(c: Config, f: FileEntry, b: Backend, live: bool)
    ensures var es := FileEffects(c, f, b, live);
      && Reset !in es[1..]
      && (|es| > 1 <==> IsWordFile(f) || IsExcelFile(f))
      && (|es| > 1 ==> es[1].Progress? && !es[1].call.isError)
  {
    var es := FileEffects(c, f, b, live);
    assert es[1..] == if IsWordFile(f) then WordEffects(c, f, b.word(f.fullName), b.sessionOpens(f.fullName), live, false)
      else if IsExcelFile(f) then ExcelEffects(c, f, b.excel(f.fullName), b.sessionOpens(f.fullName))
      else [];
  }

  /** The files of a run, one after another. */
  function RunEffects(c: Config, files: seq<FileEntry>, b: Backend, live: bool): (es: seq<Effect>)
    ensures files != [] ==> es != [] && es[0] == Reset
  {
    if files == [] then []
    else RunEffects(c, files[..|files| - 1], b, live) + FileEffects(c, files[|files| - 1], b, live)
  }

  /** A run resets the record once per file. */
  lemma {:induction false} OneResetPerFile(c: Config, files: seq<FileEntry>, b: Backend, live: bool)
    ensures multiset(RunEffects(c, files, b, live))[Reset] == |files|
    decreases |files|
  {
    if files != [] {
      var prev := RunEffects(c, files[..|files| - 1], b, live);
      var here := FileEffects(c, files[|files| - 1], b, live);
      OneResetPerFile(c, files[..|files| - 1], b, live);
      FileEffectsShape(c, files[|files| - 1], b, live);
      OneMoreReset(prev, here);
    }
  }

  /** Effects that start with their only reset add one reset to a log. */
  lemma OneMoreReset(prev: seq<Effect>, here: seq<Effect>)
    requires here != [] && here[0] == Reset && Reset !in here[1..]
    ensures multiset(prev + here)[Reset] == multiset(prev)[Reset] + 1
  {
    assert here == [Reset] + here[1..];
    assert prev + here == prev + [Reset] + here[1..];
  }

  /** One more file. */
  lemma RunEffectsSnoc(c: Config, files: seq<FileEntry>, k: nat, b: Backend, live: bool)
    requires k < |files|
    ensures RunEffects(c, files[..k + 1], b, live) == RunEffects(c, files[..k], b, live) + FileEffects(c, files[k], b, live)
  {
    assert files[..k + 1][..k] == files[..k];
  }

  /** A reset makes the record and the snapshots that follow independent of
      the record before. */
  lemma ResetForgets(u: UpdateValue, body: seq<Effect>, ri: bool)
    ensures Fold(u, [Reset] + body, ri) == Fold(ResetValue, body, ri)
    ensures Delivered(u, [Reset] + body, ri) == Delivered(ResetValue, body, ri)
  {
    FoldAppend(u, [Reset], body, ri);
    DeliveredAppend(u, [Reset], body, ri);
    assert [Reset][..0] == [];
  }

  /** When the first effect is a report without error, so is the first snapshot. */
  lemma FirstSnapshotClean(body: seq<Effect>, ri: bool)
    requires body != [] && body[0].Progress? && !body[0].call.isError
    ensures var ds := Delivered(ResetValue, body, ri);
      |ds| > 0 && !ds[0].hasError
  {
    var first := body[0];
    DeliveredAppend(ResetValue, [first], body[1..], ri);
    assert [first] + body[1..] == body;
    assert [first][..0] == [];
    assert Delivered(ResetValue, [first], ri) == [Reported(ResetValue, first.call, ri)];
  }

  /** A file's snapshots do not depend on the files before it (the record is
      reset first); the first one carries no error, and once one carries an
      error every later one of the same file does, the final 100% one included. */
  lemma FileReportsSticky(c: Config, f: FileEntry, b: Backend, live: bool, u: UpdateValue, u': UpdateValue)
    requires IsWordFile(f) || IsExcelFile(f)
    ensures var ds := Delivered(u, FileEffects(c, f, b, live), c.reportImages);
      && ds == Delivered(u', FileEffects(c, f, b, live), c.reportImages)
      && |ds| > 0 && !ds[0].hasError
      && forall j, k :: 0 <= j <= k < |ds| && ds[j].hasError ==> ds[k].hasError
  {
    var ri := c.reportImages;
    var es := FileEffects(c, f, b, live);
    var body := es[1..];
    assert es == [Reset] + body;
    ResetForgets(u, body, ri);
    ResetForgets(u', body, ri);
    DeliveredErrorsSticky(ResetValue, body, ri);
    FirstSnapshotClean(body, ri);
  }
}
