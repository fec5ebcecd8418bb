# EyesOfficeTester in Dafny

A model of the core of EyesOfficeTester, a command-line tool that walks a
directory of Microsoft Office documents and submits every Word page and
every Excel worksheet as a visual checkpoint to an Applitools Eyes session.
Three pieces are modelled.

- **The tester** (`EyesOfficeTester.cs`). It selects Word and then Excel files
  by their exact extension. It resets the shared progress record before each
  file, and reports progress at `100 * i / n` for each page or sheet. It ends
  each file's session: a Word session is aborted when the record's sticky
  `hasError` flag is set, an Excel session only when an exception leaves the
  sheet loop. Office and the Eyes service are given as outcomes:
  - a Word page renders, does not decode, or is rejected by the service;
  - a worksheet is captured, has its capture rejected, leaves no bitmap on
    the clipboard, finds the clipboard empty, or throws.

  The class `OfficeTester.EyesOfficeTester` changes its fields and the one
  `ProgressUpdate` record in place. It appends every report, session call
  and document release to a ghost effect log. Every method is proved to
  produce exactly the effects that the specification functions of
  `OfficeCheck` describe, and to leave the record as `Fold` of those
  effects. The snapshots the progress sink receives are `Delivered` of the
  same effects. The properties of the tester are lemmas about those functions: the
  sticky error, abort versus close, one reset per file, selection and
  order, and percentages that never decrease within a pane. Percentages
  are computed per pane, so they never decrease across a whole Word file
  only when it has one window. With more windows they start over at each
  window.
- **The console progress bar** (`EyesOfficeTesterCliProgressBar.cs`). The
  class `ConsoleProgressBar.CliProgressBar` has these operations:
  - `Report` takes a progress update and clamps its value through the
    `(byte)` cast.
  - `Tick` is the timer handler. It formats the status line and redraws it.
  - `UpdateText` writes the differential redraw: back to the first
    difference, the new suffix, then blanks over the leftover.
  - `Dispose` erases the line.

  The console is the string of characters written so far. `ConsoleRedraw`
  replays it on a one-line terminal, where a backspace moves the cursor left
  and any other character overwrites or appends. It proves that the line
  then shows the new text. `BarFormat` models `string.Format` for the
  composite format items the status line uses.
- **The command-line parser** (`CommandLineParser.cs`). It covers switch
  lookup, and string-option lookup, which takes the token after the first
  long flag and otherwise the token after the first short flag.

Module layout:
- `Wrappers`: Option and Result.
- `Text`: decimal rendering of integers, repeated characters.
- `ProgressRecord`: the progress record.
- `OfficeCheck`: the pure specification of the tester.
- `OfficeTester`: the tester class.
- `ConsoleRedraw`, `BarFormat` and `ConsoleProgressBar`: the progress bar.
- `CommandLine`: the parser.

## Model

| member | source | states |
|---|---|---|
| ProgressRecord.ProgressUpdate.constructor | EyesOfficeTester/EyesOfficeProgressUpdate.cs:9-16 | a new record has every reference null and no error |
| Text.NatToString | EyesOfficeTester/EyesOfficeTester.cs:257-258 | the decimal rendering of a page or sheet number is a non-empty string of digits, longer than one digit exactly from 10 on, and starting with '0' only for 0 (no leading zeros) |
| Text.DecimalRoundTrip | EyesOfficeTester/EyesOfficeTester.cs:257-258 | reading the rendered digits back gives the number |
| Text.NatToStringInjective | EyesOfficeTester/EyesOfficeTester.cs:365-366 | different numbers render differently |
| OfficeCheck.Extension | EyesOfficeTester/EyesOfficeTester.cs:212 | the extension is empty exactly when the name has no '.' or ends in '.'; otherwise it is the suffix from the last '.' |
| OfficeCheck.KindsDisjoint | EyesOfficeTester/EyesOfficeTester.cs:14-15 | no file is both a Word file and an Excel file |
| OfficeCheck.Label | EyesOfficeTester/EyesOfficeTester.cs:237-241 | the session name is the configured name when it is not empty and the fallback otherwise; it is empty only when both are |
| OfficeCheck.WordTag | EyesOfficeTester/EyesOfficeTester.cs:318 | a page's tag is the test name, the 8 characters " - Page " and the page number's digits |
| OfficeCheck.SheetTag | EyesOfficeTester/EyesOfficeTester.cs:403 | a sheet's tag is its name, one '-' and the digits of its index, and nothing after the digits |
| OfficeCheck.Matching | EyesOfficeTester/EyesOfficeTester.cs:175-181 | keeps exactly the entries whose extension is listed, each as often as it is enumerated, in enumeration order |
| OfficeCheck.GetFilesByExtensions | EyesOfficeTester/EyesOfficeTester.cs:175-181 | a null list fails with an argument-null error naming "extensions"; otherwise exactly the entries with a listed extension, each as often as it is enumerated, in order |
| OfficeCheck.OfficeFiles | EyesOfficeTester/EyesOfficeTester.cs:192-195 | the run holds each Word and Excel file as often as the directory does and nothing else; all Word files come first, then all Excel files, each kind in enumeration order |
| OfficeCheck.DispatchCoversSelection | EyesOfficeTester/EyesOfficeTester.cs:209-221 | every selected file goes to exactly one of the Word and Excel checkers |
| OfficeCheck.WordTagsDistinct | EyesOfficeTester/EyesOfficeTester.cs:318 | two pages of a document never share a checkpoint tag |
| OfficeCheck.SheetTagsDistinct | EyesOfficeTester/EyesOfficeTester.cs:403 | a sheet's tag determines its name and its index |
| OfficeCheck.Percent | EyesOfficeTester/EyesOfficeTester.cs:260 | the percentage of item i of n lies in 0..100, is 0 at i = 0 and 100 at i = n |
| OfficeCheck.PercentIsIntegerDivision | EyesOfficeTester/EyesOfficeTester.cs:260 | the percentage is the integer expression 100 * i / n |
| OfficeCheck.PercentMonotone | EyesOfficeTester/EyesOfficeTester.cs:268 | a later page never reports a smaller percentage |
| OfficeCheck.Reported | EyesOfficeTester/EyesOfficeTester.cs:92-123 | a report overwrites the value and the message, keeps an error once set, and attaches the bitmap and its PNG only when images are reported and a bitmap is given |
| OfficeCheck.FoldErrorSticky | EyesOfficeTester/EyesOfficeTester.cs:99-103 | without a reset, the error flag is its old value or'ed with the flags of every report |
| OfficeCheck.DeliveredErrorReachesEnd | EyesOfficeTester/EyesOfficeTester.cs:99-103 | a delivered snapshot with the error flag leaves the flag set in the final record |
| OfficeCheck.DeliveredErrorsSticky | EyesOfficeTester/EyesOfficeTester.cs:99-103 | once a snapshot carries the error flag, every later snapshot carries it |
| OfficeCheck.ResetForgets | EyesOfficeTester/EyesOfficeTester.cs:125-135 | after a reset the record and its snapshots do not depend on the record before |
| OfficeCheck.OpeningRecord | EyesOfficeTester/EyesOfficeTester.cs:226-243 | opening a file delivers exactly its first report, and opening the session changes nothing |
| OfficeCheck.PageReport | EyesOfficeTester/EyesOfficeTester.cs:251-271 | each page yields exactly one report, at 100 * i / n, flagged as an error exactly when the page threw |
| OfficeCheck.PaneReports | EyesOfficeTester/EyesOfficeTester.cs:251-271 | every page of a pane gets one report, in page order, at its percentage, an error exactly when that page threw (continue-on-error) |
| OfficeCheck.PanePercentsNondecreasing | EyesOfficeTester/EyesOfficeTester.cs:251-271 | a pane's percentages never decrease and the last one is 100 |
| OfficeCheck.PaneErrors | EyesOfficeTester/EyesOfficeTester.cs:251-271 | a pane only reports and submits checkpoints, and reports an error exactly when one of its pages threw |
| OfficeCheck.WindowsErrors | EyesOfficeTester/EyesOfficeTester.cs:245-272 | across all windows, an error is reported exactly when some page threw |
| OfficeCheck.WordEffects | EyesOfficeTester/EyesOfficeTester.cs:224-291 | a Word file opens with a 0% report that is not an error and the session opening with the chosen names, ends with the release and a 100% report that is not an error, and never resets the record |
| OfficeCheck.WordCalls | EyesOfficeTester/EyesOfficeTester.cs:226-290 | the reports of a Word file are the 0% report, every page's report in order, and the 100% report |
| OfficeCheck.SingleWindowPercents | EyesOfficeTester/EyesOfficeTester.cs:245-271 | in a document with at most one window, the percentages of a Word file never decrease and stay within 0..100 |
| OfficeCheck.TwoWindowsRestart | EyesOfficeTester/EyesOfficeTester.cs:245-271 | with two windows of two pages each, the reports go 0, 50, 100, 50, 100, 100: the percentage falls from 100 to 50 at the second window |
| OfficeCheck.WordBodyErrorFlag | EyesOfficeTester/EyesOfficeTester.cs:226-272 | after the pages, the record's flag is set exactly when it was set before or some page threw |
| OfficeCheck.WordEndingRecord | EyesOfficeTester/EyesOfficeTester.cs:273-290 | ending a Word file leaves the record as the final 100% report makes it, and that is the only snapshot delivered |
| OfficeCheck.WordSessionEnding | EyesOfficeTester/EyesOfficeTester.cs:224-291 | an open Word session is aborted exactly when a record exists and its flag is set (before the file, or by a page that threw), and closed otherwise; a session that is not open is neither |
| OfficeCheck.SheetEffects | EyesOfficeTester/EyesOfficeTester.cs:359-375 | a sheet escapes the loop exactly when it throws, at its percentage; a sheet without a bitmap yields exactly two error reports at its percentage; any other sheet reports no error |
| OfficeCheck.SheetsRunStops | EyesOfficeTester/EyesOfficeTester.cs:349-389 | once an exception has left the sheet loop, later sheets add nothing |
| OfficeCheck.SheetsRunShape | EyesOfficeTester/EyesOfficeTester.cs:359-376 | the loop ends with an exception exactly when some sheet throws |
| OfficeCheck.SheetsRunErrors | EyesOfficeTester/EyesOfficeTester.cs:359-376 | when no sheet throws, the loop reports an error exactly when some sheet lacked a bitmap |
| OfficeCheck.LoopExitShape | EyesOfficeTester/EyesOfficeTester.cs:378-389 | leaving the loop closes the session exactly when nothing escaped, aborts it exactly when something escaped while it was open, and reports an error exactly when something escaped |
| OfficeCheck.WorkbookExitRecord | EyesOfficeTester/EyesOfficeTester.cs:378-397 | after the loop the record takes the workbook error, when there is one, and then the 100% report; exactly those snapshots are delivered |
| OfficeCheck.ExcelSessionEnding | EyesOfficeTester/EyesOfficeTester.cs:349-397 | a workbook's session is closed exactly when no sheet throws, even when sheets lacked bitmaps, and aborted exactly when one throws while the session is open |
| OfficeCheck.ExcelErrors | EyesOfficeTester/EyesOfficeTester.cs:359-397 | a workbook reports an error exactly when a sheet throws or lacks a bitmap |
| OfficeCheck.ExcelEffects | EyesOfficeTester/EyesOfficeTester.cs:325-398 | a workbook opens with a 0% report that is not an error and the session opening with the chosen names, ends with the release and a 100% report that is not an error, and never resets the record |
| OfficeCheck.FileEffects | EyesOfficeTester/EyesOfficeTester.cs:209-221 | checking a file starts with the reset of the record |
| OfficeCheck.FileEffectsShape | EyesOfficeTester/EyesOfficeTester.cs:209-221 | the reset is the only one; something follows it exactly when the file is a Word or an Excel file, and then it is a report that is not an error |
| OfficeCheck.RunEffects | EyesOfficeTester/EyesOfficeTester.cs:196-202 | a run of at least one file starts with a reset |
| OfficeCheck.OneResetPerFile | EyesOfficeTester/EyesOfficeTester.cs:196-221 | a run resets the record exactly once per file |
| OfficeCheck.FileReportsSticky | EyesOfficeTester/EyesOfficeTester.cs:209-290 | a file's snapshots do not depend on earlier files; the first has no error, and once one has an error every later one does, the final 100% report included |
| OfficeTester.EyesOfficeTester.constructor | EyesOfficeTester/EyesOfficeTester.cs:20-56 | the default settings: empty names, the default batch name and server, no notification, fail on differences, no images, no record |
| OfficeTester.EyesOfficeTester.ServerUrl | EyesOfficeTester/EyesOfficeTester.cs:58-61 | sets the server URL and nothing else |
| OfficeTester.EyesOfficeTester.TestName | EyesOfficeTester/EyesOfficeTester.cs:63-66 | sets the test name and nothing else |
| OfficeTester.EyesOfficeTester.AppName | EyesOfficeTester/EyesOfficeTester.cs:68-71 | sets the application name and nothing else |
| OfficeTester.EyesOfficeTester.ReportImages | EyesOfficeTester/EyesOfficeTester.cs:73-76 | sets whether images are reported and nothing else |
| OfficeTester.EyesOfficeTester.SetBatch | EyesOfficeTester/EyesOfficeTester.cs:78-81 | sets the batch and nothing else |
| OfficeTester.EyesOfficeTester.NotifyOnCompletion | EyesOfficeTester/EyesOfficeTester.cs:83-85 | sets the notification flag and nothing else |
| OfficeTester.EyesOfficeTester.FailOnDiff | EyesOfficeTester/EyesOfficeTester.cs:87-90 | sets whether differences fail the run and nothing else |
| OfficeTester.EyesOfficeTester.ReportProgress | EyesOfficeTester/EyesOfficeTester.cs:92-123 | with a record, the record becomes `Reported` of the call and is delivered once; without one nothing is delivered |
| OfficeTester.EyesOfficeTester.ResetProgress | EyesOfficeTester/EyesOfficeTester.cs:125-135 | the record becomes value 0, message "", no error, no images; nothing is delivered |
| OfficeTester.EyesOfficeTester.SetupEyes | EyesOfficeTester/EyesOfficeTester.cs:137-152 | creates the batch from the batch name and id when none is set, gives it the notification flag, and sets the API key on the client only when it is not empty |
| OfficeTester.EyesOfficeTester.OpenEyes | EyesOfficeTester/EyesOfficeTester.cs:154-158 | records one session opening with the given names |
| OfficeTester.EyesOfficeTester.AbortEyes | EyesOfficeTester/EyesOfficeTester.cs:160-163 | records one abort |
| OfficeTester.EyesOfficeTester.CloseEyes | EyesOfficeTester/EyesOfficeTester.cs:165-168 | records one close |
| OfficeTester.EyesOfficeTester.TearDownEyes | EyesOfficeTester/EyesOfficeTester.cs:170-173 | records one collection of all results with the fail-on-difference flag |
| OfficeTester.EyesOfficeTester.EyesCheckImage | EyesOfficeTester/EyesOfficeTester.cs:318 | records one checkpoint with its image and tag |
| OfficeTester.EyesOfficeTester.QuitOffice | EyesOfficeTester/EyesOfficeTester.cs:285-286 | records the release of the document and its application |
| OfficeTester.EyesOfficeTester.CheckOfficeFiles | EyesOfficeTester/EyesOfficeTester.cs:184-207 | creates the record when there is a sink, sets up the client, checks the selected files in order, then collects the results once |
| OfficeTester.EyesOfficeTester.CheckFiles | EyesOfficeTester/EyesOfficeTester.cs:196-202 | the loop over files produces the effects of every file in order |
| OfficeTester.EyesOfficeTester.CheckNextFile | EyesOfficeTester/EyesOfficeTester.cs:196-202 | one iteration extends the run by the next file's effects |
| OfficeTester.EyesOfficeTester.CheckFile | EyesOfficeTester/EyesOfficeTester.cs:209-221 | resets the record, then checks the file as Word or Excel by its exact extension, or does nothing else |
| OfficeTester.EyesOfficeTester.CheckWordPages | EyesOfficeTester/EyesOfficeTester.cs:224-291 | produces the Word file's effects, aborting exactly when the record's flag is set at the end |
| OfficeTester.EyesOfficeTester.CheckWordBody | EyesOfficeTester/EyesOfficeTester.cs:226-272 | the first report, the session opening and every page of every window |
| OfficeTester.EyesOfficeTester.CheckWindows | EyesOfficeTester/EyesOfficeTester.cs:245-272 | the window loop produces every window's pages in order |
| OfficeTester.EyesOfficeTester.CheckNextWindow | EyesOfficeTester/EyesOfficeTester.cs:245-272 | one iteration extends the windows by the next pane |
| OfficeTester.EyesOfficeTester.CheckPane | EyesOfficeTester/EyesOfficeTester.cs:251-271 | the page loop produces every page's checkpoint and report in order |
| OfficeTester.EyesOfficeTester.CheckPage | EyesOfficeTester/EyesOfficeTester.cs:253-270 | page i is checked and reported at 100 * i / n, as an error when it threw |
| OfficeTester.EyesOfficeTester.ReportPage | EyesOfficeTester/EyesOfficeTester.cs:257-269 | a page whose check succeeded is reported with its bitmap and no error, one whose check threw with the error message and the error flag, both at 100 * i / n |
| OfficeTester.EyesOfficeTester.EndWordDocument | EyesOfficeTester/EyesOfficeTester.cs:273-290 | an open session is aborted when the record's flag is set and closed otherwise; then the release and the 100% report |
| OfficeTester.EyesOfficeTester.EyesCheckWordPageBits | EyesOfficeTester/EyesOfficeTester.cs:294-322 | throws exactly when the bits do not decode or the open session rejects the checkpoint; submits the checkpoint only while the session is open |
| OfficeTester.EyesOfficeTester.CheckSheets | EyesOfficeTester/EyesOfficeTester.cs:325-398 | produces the workbook's effects: opening, sheet loop, exit, release and 100% report |
| OfficeTester.EyesOfficeTester.SheetLoop | EyesOfficeTester/EyesOfficeTester.cs:359-376 | the sheet loop runs until the first exception and returns it with its percentage |
| OfficeTester.EyesOfficeTester.CheckNextSheet | EyesOfficeTester/EyesOfficeTester.cs:359-376 | one iteration extends the loop by the next sheet |
| OfficeTester.EyesOfficeTester.CheckSheet | EyesOfficeTester/EyesOfficeTester.cs:361-375 | sheet k is captured and reported at 100 * k / n, as an error when it has no bitmap, or its exception is returned |
| OfficeTester.EyesOfficeTester.EndWorkbook | EyesOfficeTester/EyesOfficeTester.cs:378-397 | a normal exit closes the session; an escape aborts an open session and reports the error; then the release and the 100% report |
| OfficeTester.EyesOfficeTester.EyesCheckExcelSheet | EyesOfficeTester/EyesOfficeTester.cs:400-444 | the bitmap is missing exactly when the clipboard is empty or holds none, which is reported as an error; an open session gets the checkpoint tagged name-index |
| OfficeTester.EyesOfficeTester.SubmitSheet | EyesOfficeTester/EyesOfficeTester.cs:424-428 | a captured sheet is submitted as a checkpoint only while the session is open, and nothing is reported |
| OfficeTester.EyesOfficeTester.ReportClipboardError | EyesOfficeTester/EyesOfficeTester.cs:431-441 | a sheet without a bitmap yields one error report at its percentage |
| ConsoleRedraw.CommonPrefixLength | EyesOfficeTesterCli/EyesOfficeTesterCliProgressBar.cs:108-116 | the common prefix is maximal: no longer than either text, equal on both, and followed by a difference or the end of one text |
| ConsoleRedraw.Redraw | EyesOfficeTesterCli/EyesOfficeTesterCliProgressBar.cs:118-134 | when the new text extends the shown one, the output is exactly the added suffix |
| ConsoleRedraw.PlayRedraw | EyesOfficeTesterCli/EyesOfficeTesterCliProgressBar.cs:118-133 | replayed on the terminal, the output leaves the cells `RedrawCells` with the cursor after the new text |
| ConsoleRedraw.RedrawReplay | EyesOfficeTesterCli/EyesOfficeTesterCliProgressBar.cs:118-134 | on a line showing the old text, the output leaves the line showing exactly the new text (round trip) |
| ConsoleRedraw.ConsoleAfterRedraw | EyesOfficeTesterCli/EyesOfficeTesterCliProgressBar.cs:118-134 | appending the output to a console whose line shows the old text makes it show the new text |
| ConsoleRedraw.RedrawIdempotent | EyesOfficeTesterCli/EyesOfficeTesterCliProgressBar.cs:110-134 | redrawing the text already shown writes nothing |
| ConsoleRedraw.ClearLine | EyesOfficeTesterCli/EyesOfficeTesterCliProgressBar.cs:142-149 | erasing writes as many backspaces, blanks and backspaces as the shown text is long, and leaves a blank line with the cursor at column 0 |
| BarFormat.Glyph | EyesOfficeTesterCli/EyesOfficeTesterCliProgressBar.cs:22 | the spinner glyph is one of the four animation characters |
| BarFormat.GlyphCycle | EyesOfficeTesterCli/EyesOfficeTesterCliProgressBar.cs:99 | tick i shows the vertical bar, the slash, the dash or the backslash exactly when i is 0, 1, 2 or 3 modulo 4; each tick shows the next glyph of that cycle, the glyph repeats after four ticks, and four consecutive ticks show four different glyphs |
| BarFormat.PadLeft | EyesOfficeTesterCli/EyesOfficeTesterCliProgressBar.cs:95 | a right-aligned item is padded with blanks on the left to the width, keeping the value at the end |
| BarFormat.Format | EyesOfficeTesterCli/EyesOfficeTesterCliProgressBar.cs:95 | a format string without braces formats to itself |
| BarFormat.FormatLiteral | EyesOfficeTesterCli/EyesOfficeTesterCliProgressBar.cs:95 | text without braces passes through formatting unchanged |
| BarFormat.BarText | EyesOfficeTesterCli/EyesOfficeTesterCliProgressBar.cs:93-99 | the status line has the bar in brackets, exactly ten cells of '#' then '-', ends with the message, and is 22 characters plus the message for a percentage below 1000 |
| BarFormat.TickTextAsWritten | EyesOfficeTesterCli/EyesOfficeTesterCliProgressBar.cs:95-99 | the source's call yields the bar, the percentage and the glyph, followed by the message parsed as format text of its own, failing when the message fails |
| BarFormat.BraceFreeMessageAgrees | EyesOfficeTesterCli/EyesOfficeTesterCliProgressBar.cs:95-99 | for a message without braces the source's call yields the status line |
| BarFormat.LoneBraceMessageThrows | EyesOfficeTesterCli/EyesOfficeTesterCliProgressBar.cs:95 | a message "{" makes the source's call fail |
| BarFormat.ItemMessageSubstituted | EyesOfficeTesterCli/EyesOfficeTesterCliProgressBar.cs:95 | a message "{0}" is replaced by the filled blocks |
| ConsoleProgressBar.Clamp | EyesOfficeTesterCli/EyesOfficeTesterCliProgressBar.cs:55-59 | the clamped progress is 0 or 1 |
| ConsoleProgressBar.ClampZeroIff | EyesOfficeTesterCli/EyesOfficeTesterCliProgressBar.cs:56-59 | the clamped progress is 0 exactly when the value is a multiple of 256 |
| ConsoleProgressBar.ClampOfPercent | EyesOfficeTesterCli/EyesOfficeTesterCliProgressBar.cs:56-59 | every percentage 1..100 is stored as 1, and 0 as 0, so the bar reads full from the first report above 0% |
| ConsoleProgressBar.CliProgressBar.constructor | EyesOfficeTesterCli/EyesOfficeTesterCliProgressBar.cs:33-45 | nothing drawn, no progress, and the timer armed only when the output is not redirected |
| ConsoleProgressBar.CliProgressBar.Report | EyesOfficeTesterCli/EyesOfficeTesterCliProgressBar.cs:47-85 | a non-null message replaces the stored one; a null value fails; otherwise the clamped value is written back and stored, and a bitmap is encoded and saved when images are written |
| ConsoleProgressBar.CliProgressBar.Tick | EyesOfficeTesterCli/EyesOfficeTesterCliProgressBar.cs:87-104 | a tick fires only while the one-shot timer is scheduled and uses it up; a disposed bar changes nothing else and leaves the timer off; otherwise the status line is drawn, the glyph advances, the timer is re-armed, and the line shows the status line |
| ConsoleProgressBar.CliProgressBar.Dispose | EyesOfficeTesterCli/EyesOfficeTesterCliProgressBar.cs:142-149 | marks the bar disposed and erases the line; a second dispose writes nothing |
| ConsoleProgressBar.CliProgressBar.UpdateText | EyesOfficeTesterCli/EyesOfficeTesterCliProgressBar.cs:106-135 | the loop finds the maximal common prefix; the console gains exactly the redraw, after which the line shows the new text |
| CommandLine.IndexOf | EyesOfficeTesterCli/CommandLineParser.cs:14-21 | -1 exactly when the token is absent, otherwise the position of its first occurrence |
| CommandLine.GetSwitchArgument | EyesOfficeTesterCli/CommandLineParser.cs:31-34 | true exactly when some token is the long or the short flag |
| CommandLine.GetStringArgumentAsWritten | EyesOfficeTesterCli/CommandLineParser.cs:12-29 | the lookup fails exactly when the first long flag is the last token, or the long flag is absent and the first short flag is the last token; a value it returns is the token right after one of the two flags |
| CommandLine.LongFlagValue | EyesOfficeTesterCli/CommandLineParser.cs:14-19 | the first long flag followed by a token yields that token, whatever the short flag does |
| CommandLine.ShortFlagWhenLongAbsent | EyesOfficeTesterCli/CommandLineParser.cs:14-26 | without the long flag, the short flag decides |
| CommandLine.NullIffSwitchAbsent | EyesOfficeTesterCli/CommandLineParser.cs:12-29 | the lookup yields null exactly when neither flag occurs |
| CommandLine.GuardAlwaysHolds | EyesOfficeTesterCli/CommandLineParser.cs:16 | the guard `_args.Count > index` holds for every found index |
| CommandLine.LongFlagLastThrows | EyesOfficeTesterCli/CommandLineParser.cs:16-18 | a long flag that is the last token makes the lookup fail out of range |
| CommandLine.DirectoryFlagLastThrows | EyesOfficeTesterCli/CommandLineParser.cs:16-25 | `--directory` alone fails as written and yields null with the corrected guard |
| CommandLine.GetStringArgument | EyesOfficeTesterCli/CommandLineParser.cs:12-29 | with the corrected guard, a result is always the token right after one of the two flags |
| CommandLine.CorrectedAgreesWhenDefined | EyesOfficeTesterCli/CommandLineParser.cs:12-29 | wherever the source's lookup does not fail, the corrected lookup gives the same result |

## Left out

- Office automation, the clipboard, the Eyes service and image drawing are outcomes given as parameters (`Backend`, `PageOutcome`, `SheetOutcome`). Images and PNG encodings are opaque tokens.
- Whether a session is open after `Open` is a given per-file outcome. The service's own state machine is not modelled.
- The process-wide static fields (`BatchInfo`, `_isFailOnDiff`, the runner and the batch id) are fields of one tester. Sharing between several testers is not modelled.
- The GUID batch id is a constructor parameter, because it is random.
- OfficeTester.EyesOfficeTester.constructor: the four constructors of the source are one, with the API key and the presence of a progress sink as parameters.
- The `hasProgressBar` parameter of `CheckOfficeFiles` is unused in the source and is dropped.
- The progress sink (`IProgress.Report`) is modelled as receiving a snapshot of the record at each report. `Progress<T>` posts to a synchronisation context, which can make a sink see a later state of the shared record; that asynchrony is not modelled.
- The per-file STA thread that is started and joined at once is a plain loop. `Thread.Sleep` delays are dropped.
- Console output of the tester (`Console.WriteLine` of errors and of the results summary) is dropped. It is not part of the progress bar's line model.
- The `BatchInfo == null` branch at the start of `CheckSheets` cannot run after `SetupEyes` has set the batch, so it is not modelled.
- `CheckFile` applies `Path.GetExtension` to the full path and the selection uses `FileInfo.Extension`. Both are taken from the file's name, which has the same last extension.
- Directory enumeration is a given sequence of entries.
- Excel chart sheets and sheet indices that differ from positions are not modelled: a sheet's index is its 1-based position.
- ConsoleProgressBar.CliProgressBar.Report: the image file name (a UTC timestamp) and the file system are not modelled. Written images are a list of PNG encodings in order.
- `Console.IsOutputRedirected` is a constructor parameter. The timer's interval, `lock`, `Interlocked` and `ResetTimer` are not modelled: a tick is an explicit `Tick` call, allowed only while `timerArmed` says the one-shot timer is scheduled; the tick clears it and a drawn tick sets it again. `Report` runs outside the lock in the source, so a report racing a tick is not modelled.
- ConsoleProgressBar.CliProgressBar.Tick: `animationIndex` is unbounded. The source's `int` overflows after 2^31 ticks, which would make the glyph index negative.
- The `double` progress is an integer 0 or 1, which is every value the clamp can store. `(int)(currentProgress * 10)` and `(int)(currentProgress * 100)` are then exact.
- BarFormat.Format: only the composite-format forms the status line uses are modelled: literal text, `{{`, `}}`, `{n}` and `{n,w}` with an optional `-`. Whitespace or a `:format` part inside an item is treated as an error, while .NET accepts it.
- The terminal is one line wide enough for any text. A drawn control character other than backspace (a newline in an error message, say) sets the ghost flag `garbled`, after which no claim is made about the line.
- The parser's "no mutation" property holds by construction: the parser is an immutable value built once from the arguments.
- `Program.cs`, which wires flags, sink and tester together, is not part of this model.
- OfficeTester.EyesOfficeTester.CheckWordPages: the Office and service calls outside the page loop's `try` are taken to succeed. These are `new Word.Application` and `Documents.Add` (EyesOfficeTester.cs:229-234), `OpenEyes` (:243), reading `EnhMetaFileBits` (:253, before the `try`), `AbortEyes`/`CloseEyes` (:278, :281), and `Close`/`Quit` (:285-286). In the source an exception from any of them leaves `CheckFile` uncaught and ends the process: no Done report, later files unchecked, `TearDownEyes` never runs.
- OfficeTester.EyesOfficeTester.CheckSheets: `new Excel.Application` (EyesOfficeTester.cs:337) and `Workbooks.Open` (:348) are taken to succeed; in the source their exceptions end the process as above. `OpenEyes` (:357) and `CloseEyes` (:379) inside the `try` are also taken to succeed, so their failure (caught at :381, aborting an open session and reporting the error at the last percentage) is not modelled; only a sheet's exception leaves the loop.
- OfficeTester.EyesOfficeTester.CheckOfficeFiles: its contract describes a run in which none of the calls listed for `CheckWordPages` and `CheckSheets` fails.
- The `xl == null` branch of `CheckSheets` (EyesOfficeTester.cs:340-346) is not modelled: a constructor never yields null, and :338 has already dereferenced `xl`.
- ConsoleProgressBar.CliProgressBar.Tick: the bar draws the corrected status line `BarText`, with the message appended as plain text. The source's `string.Format` over the concatenated message (EyesOfficeTesterCliProgressBar.cs:95) throws on a lone `{` and substitutes `{0}`; that behaviour is modelled by `BarFormat.TickTextAsWritten` and the Findings row, not in the class.

## Findings

| source | as written | input that shows it | evidently intended | confidence | as-written member | corrected member |
|---|---|---|---|---|---|---|
| EyesOfficeTesterCli/EyesOfficeTesterCliProgressBar.cs:95 | the progress message is concatenated into the composite format string | a message holding `{` (a file named `{draft}.docx`) makes `string.Format` throw in the timer; a message holding `{0}` shows the filled blocks in its place | the message is appended to the formatted status line as plain text | not executed | BarFormat.LoneBraceMessageThrows | BarFormat.BarText |
| EyesOfficeTesterCli/CommandLineParser.cs:16-25 | the guard `_args.Count > index` holds for every found index, so `_args[index + 1]` is read past the end | the command line `--directory` with nothing after it throws an out-of-range exception | `_args.Count > index + 1`, so a flag without a value counts as absent | not executed | CommandLine.DirectoryFlagLastThrows | CommandLine.GetStringArgument |
