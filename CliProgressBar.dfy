/** The console progress bar (EyesOfficeTesterCli/EyesOfficeTesterCliProgressBar.cs):
    the tester's progress sink when the command line asks for a bar. Reports
    set the message and the progress; every timer tick redraws one status
    line in place; disposing erases the line. The console is the string of
    characters the bar has written, and the line it shows is given by the
    one-line terminal of `ConsoleRedraw`. */
module ConsoleProgressBar {
  import opened Wrappers
  import opened Text
  import opened ProgressRecord
  import opened ConsoleRedraw
  import opened BarFormat

  /** `Math.Max((byte)0, Math.Min((byte)1, (byte)v))`: the unchecked cast
      keeps the low eight bits of `v` (two's complement, so `v % 256` for
      negative `v` too), and the result is 0 or 1. */
  function Clamp(v: int): (c: int)
    ensures c == 0 || c == 1
  {
    var low := v % 256;
    var atMostOne := if low < 1 then low else 1;
    if atMostOne > 0 then atMostOne else 0
  }

  /** The clamped value is 0 exactly for multiples of 256. */
  lemma ClampZeroIff(v: int)
    ensures (Clamp(v) == 0) <==> v % 256 == 0
  {
  }

  /** Every percent the tester reports other than 0 is stored as 1: the bar is
      full and shows 100% from the first page on. */
  lemma ClampOfPercent(v: int)
    requires 0 <= v <= 100
    ensures Clamp(v) == if v == 0 then 0 else 1
  {
  }

  /** The bar's fields at one instant. */
  datatype BarState = BarState(
    currentProgress: int,
    currentText: string,
    disposed: bool,
    animationIndex: nat,
    isWriteImage: bool,
    message: string,
    timerArmed: bool,
    console: string,
    savedImages: seq<Png>)

  /** The status line a tick draws in state `s`: the bar full or empty as
      the stored progress is 1 or 0, the percent 100 or 0, the glyph of the
      tick count and the message. */
  function StatusLine(s: BarState): string
    requires s.currentProgress == 0 || s.currentProgress == 1
  {
    BarText(s.currentProgress * BlockCount, s.currentProgress * 100, Glyph(s.animationIndex), s.message)
  }

  class CliProgressBar {
    /** The stored progress: 0 or 1 after the clamp. */
    var currentProgress: int
    /** The status line as last drawn. */
    var currentText: string
    var disposed: bool
    /** The number of ticks drawn so far; it picks the spinner glyph. */
    var animationIndex: nat
    const isWriteImage: bool
    /** The last non-null progress message (`null` before the first is
        modelled as the empty string, which is what `+` appends for it). */
    var message: string
    /** Whether the one-shot timer is scheduled to fire a tick: set by
        `ResetTimer`, used up when the tick fires. */
    var timerArmed: bool
    /** Everything the bar has written to the console. */
    var console: string
    /** The PNG files the bar has written, in order. */
    var savedImages: seq<Png>
    /** Some drawn text held a control character, after which the line no
        longer matches the one-line terminal. */
    ghost var garbled: bool

    function State(): BarState
      reads this
    {
      BarState(currentProgress, currentText, disposed, animationIndex, isWriteImage,
               message, timerArmed, console, savedImages)
    }

    /** The stored progress is 0 or 1; a disposed bar shows nothing; and,
        unless a control character was drawn, the console line shows the
        last drawn text. */
    ghost predicate Valid()
      reads this
    {
      (currentProgress == 0 || currentProgress == 1) &&
      (disposed ==> currentText == []) &&
      LineShowsText()
    }

    /** Unless a control character was drawn, the console line shows the
        last drawn text. */
    ghost predicate LineShowsText()
      reads this
    {
      !garbled ==> Shows(Play(EmptyLine, console), currentText)
    }


    /** A new bar: nothing drawn, no progress. The timer is started only when
        the console output is not redirected to a file. */
    constructor (isWriteImage: bool, outputRedirected: bool)
      ensures State() == BarState(0, [], false, 0, isWriteImage, [], !outputRedirected, [], [])
      ensures !garbled && Valid()
    {
      currentProgress, currentText, disposed, animationIndex := 0, [], false, 0;
      this.isWriteImage := isWriteImage;
      message, timerArmed, console, savedImages := [], !outputRedirected, [], [];
      garbled := false;
    }

    /** Takes one update from the tester. A non-null message replaces the
        stored one. A null value makes the `(byte)` cast throw, after the
        message was taken. Otherwise the clamped value is written back into
        the update and stored, and, when images are saved, a bitmap is
        encoded into the update and written to a file. */
    method Report(update: ProgressUpdate) returns (failed: bool)
      requires Valid()
      modifies this, update
      ensures failed == old(update.progressValue).None?
      ensures var m := if old(update.progressMessage).Some? then old(update.progressMessage).value
                       else old(message);
        var save := !failed && isWriteImage && old(update.bitmap).Some?;
        State() == old(State()).(
          message := m,
          currentProgress := if failed then old(currentProgress)
                             else Clamp(old(update.progressValue).value),
          savedImages := old(savedImages) + if save then [PngOf(old(update.bitmap).value)] else [])
      ensures var save := !failed && isWriteImage && old(update.bitmap).Some?;
        update.Value() == old(update.Value()).(
          progressValue := if failed then old(update.progressValue)
                           else Some(Clamp(old(update.progressValue).value)),
          pngBytes := if save then Some(PngOf(old(update.bitmap).value)) else old(update.pngBytes))
      ensures garbled == old(garbled) && Valid()
    {
      if update.progressMessage.Some? {
        message := update.progressMessage.value;
      }
      if update.progressValue.None? {
        return true;
      }
      var clamped := Clamp(update.progressValue.value);
      update.progressValue := Some(clamped);
      currentProgress := clamped;
      if isWriteImage && update.bitmap.Some? {
        var png := PngOf(update.bitmap.value);
        update.pngBytes := Some(png);
        savedImages := savedImages + [png];
      }
      return false;
    }

    /** One timer tick (`TimerHandler`), which fires only while the one-shot
        timer is scheduled and uses it up: once disposed nothing else
        happens and the timer stays off; otherwise the status line of the
        current progress, glyph and message is drawn, the glyph advances and
        the timer is re-armed. */
    method Tick()
      requires Valid() && timerArmed
      modifies this
      ensures old(disposed) ==> State() == old(State()).(timerArmed := false)
      ensures !old(disposed) ==>
        State() == old(State()).(
          animationIndex := old(animationIndex) + 1,
          currentText := StatusLine(old(State())),
          console := old(console) + Redraw(old(currentText), StatusLine(old(State()))),
          timerArmed := true)
      ensures garbled == (old(garbled) || (!old(disposed) && !Printable(StatusLine(old(State())))))
      ensures Valid()
    {
      if disposed {
        timerArmed := false;
        return;
      }
      ghost var s0 := State();
      var blocks := currentProgress * BlockCount;
      var percent := currentProgress * 100;
      var text := BarText(blocks, percent, Glyph(animationIndex), message);
      assert text == StatusLine(s0);
      animationIndex := animationIndex + 1;
      ghost var s1 := State();
      assert s1 == s0.(animationIndex := s0.animationIndex + 1);
      UpdateText(text);
      ghost var s2 := State();
      assert s2 == s1.(currentText := text, console := s1.console + Redraw(s1.currentText, text));
      timerArmed := true;
      assert State() == s2.(timerArmed := true);
    }

    /** Marks the bar disposed and erases the status line. */
    method Dispose()
      requires Valid()
      modifies this
      ensures State() == old(State()).(
        disposed := true,
        currentText := [],
        console := old(console) + Redraw(old(currentText), []))
      ensures old(disposed) ==> console == old(console)
      ensures garbled == old(garbled) && Valid()
    {
      disposed := true;
      UpdateText([]);
      if old(disposed) {
        RedrawIdempotent([]);
      }
    }

    /** Redraws the console line from the current text to `text`: finds the
        common prefix, then writes backspaces to it, the rest of `text`, and
        blanks over what `text` no longer covers. */
    method UpdateText(text: string)
      requires LineShowsText()
      modifies this
      ensures State() == old(State()).(
        currentText := text,
        console := old(console) + Redraw(old(currentText), text))
      ensures garbled == (old(garbled) || !Printable(text))
      ensures LineShowsText()
    {
      var commonPrefixLength := 0;
      var commonLength := if |currentText| < |text| then |currentText| else |text|;
      while commonPrefixLength < commonLength && text[commonPrefixLength] == currentText[commonPrefixLength]
        invariant commonPrefixLength <= commonLength
        invariant text[..commonPrefixLength] == currentText[..commonPrefixLength]
        decreases commonLength - commonPrefixLength
      {
        commonPrefixLength := commonPrefixLength + 1;
      }
      CommonPrefixUnique(currentText, text, commonPrefixLength,
                         CommonPrefixLength(currentText, text));

      var output := Repeat(Backspace, |currentText| - commonPrefixLength);
      output := output + text[commonPrefixLength..];
      var overlapCount := |currentText| - |text|;
      if overlapCount > 0 {
        output := output + Repeat(' ', overlapCount);
        output := output + Repeat(Backspace, overlapCount);
      }
      assert output == Redraw(currentText, text);

      if !garbled && Printable(text) {
        ConsoleAfterRedraw(console, currentText, text);
      }
      garbled := garbled || !Printable(text);
      console := console + output;
      currentText := text;
    }
  }
}
