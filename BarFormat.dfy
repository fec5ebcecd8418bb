/** The status line the console progress bar draws on every timer tick:
    `[` ten block characters `] ` the percent right-aligned in three columns
    `% ` a spinner glyph ` - ` the current message. The source builds it with
    `string.Format` on a template to which the message has already been
    appended, so the message is parsed as part of the format; `Format` models
    that composite-format parsing, and `BarText` is the line with the message
    appended literally. */
module BarFormat {
  import opened Wrappers
  import opened Text

  /** The number of cells of the bar between the brackets. */
  const BlockCount: nat := 10

  /** The spinner glyphs, shown in turn. */
  const Animation: string := "|/-\\"

  /** The spinner glyph of the `index`-th tick. */
  function Glyph(index: nat): (c: char)
    ensures c in Animation
  {
    Animation[index % |Animation|]
  }

  /** The glyph shown after `c`. */
  function NextGlyph(c: char): char
  {
    if c == '|' then '/' else if c == '/' then '-' else if c == '-' then '\\' else '|'
  }

  /** The spinner shows '|', '/', '-', '\\' in turn from tick 0: each tick
      shows the next glyph, it repeats every four ticks, and four ticks in a
      row show four different glyphs. */
  lemma GlyphCycle(i: nat)
    ensures Glyph(i) == '|' <==> i % 4 == 0
    ensures Glyph(i) == '/' <==> i % 4 == 1
    ensures Glyph(i) == '-' <==> i % 4 == 2
    ensures Glyph(i) == '\\' <==> i % 4 == 3
    ensures Glyph(i + 1) == NextGlyph(Glyph(i))
    ensures Glyph(i + 4) == Glyph(i)
    ensures forall j, k :: i <= j < k < i + 4 ==> Glyph(j) != Glyph(k)
  {
  }

  /** `s` right-aligned in `width` columns (never truncated). */
  function PadLeft(s: string, width: nat): (r: string)
    ensures |r| == if |s| < width then width else |s|
    ensures r[|r| - |s|..] == s
    ensures forall k :: 0 <= k < |r| - |s| ==> r[k] == ' '
  {
    if |s| < width then Repeat(' ', width - |s|) + s else s
  }

  /** `s` left-aligned in `width` columns (never truncated). */
  function PadRight(s: string, width: nat): (r: string)
    ensures |r| == if |s| < width then width else |s|
    ensures r[..|s|] == s
    ensures forall k :: |s| <= k < |r| ==> r[k] == ' '
  {
    if |s| < width then s + Repeat(' ', width - |s|) else s
  }

  // ---------------------------------------------------------------------
  // Composite formatting (`string.Format`)
  // ---------------------------------------------------------------------

  /** `string.Format` rejected its format string. */
  datatype FormatError = FormatError

  predicate IsDigit(c: char)
  {
    '0' <= c <= '9'
  }

  /** The number of decimal digits `s` starts with. */
  function LeadingDigits(s: string): (n: nat)
    ensures n <= |s|
    ensures AllDigits(s[..n])
    ensures n < |s| ==> !IsDigit(s[n])
  {
    if s == [] || !IsDigit(s[0]) then 0
    else
      var n := LeadingDigits(s[1..]);
      assert s[..n + 1] == [s[0]] + s[1..][..n];
      1 + n
  }

  /** A formatted piece in front of the rest of the output, unless the rest
      failed. */
  function Prefixed(piece: string, rest: Result<string, FormatError>): Result<string, FormatError>
  {
    if rest.Success? then Success(piece + rest.value) else rest
  }

  /** Composite formatting with string arguments: `{{` and `}}` stand for
      braces, `{i}` for argument `i`, `{i,w}` and `{i,-w}` for argument `i`
      right- or left-aligned in `w` columns. A brace that starts no such item,
      or an item whose index has no argument, is a format error. */
  function Format(f: string, args: seq<string>): (r: Result<string, FormatError>)
    ensures BraceFree(f) ==> r == Success(f)
    decreases |f|, 1
  {
    assert f != [] ==> f == [f[0]] + f[1..];
    if f == [] then Success([])
    else if f[0] == '{' then
      if |f| > 1 && f[1] == '{' then Prefixed("{", Format(f[2..], args))
      else FormatItem(f[1..], args)
    else if f[0] == '}' then
      if |f| > 1 && f[1] == '}' then Prefixed("}", Format(f[2..], args))
      else Failure(FormatError)
    else Prefixed([f[0]], Format(f[1..], args))
  }

  /** The format item whose opening brace precedes `s`: an argument index,
      then `}` or an alignment. */
  function FormatItem(s: string, args: seq<string>): Result<string, FormatError>
    decreases |s|, 0
  {
    var n := LeadingDigits(s);
    if n == 0 || n == |s| || DecimalValue(s[..n]) >= |args| then Failure(FormatError)
    else if s[n] == '}' then Prefixed(args[DecimalValue(s[..n])], Format(s[n + 1..], args))
    else if s[n] == ',' then FormatAligned(args[DecimalValue(s[..n])], s[n + 1..], args)
    else Failure(FormatError)
  }

  /** The alignment of a format item after its comma: an optional `-` (left
      alignment), a width, then `}`. */
  function FormatAligned(arg: string, s: string, args: seq<string>): Result<string, FormatError>
    decreases |s|, 0
  {
    var left := s != [] && s[0] == '-';
    var w := if left then s[1..] else s;
    var m := LeadingDigits(w);
    if m == 0 || m == |w| || w[m] != '}' then Failure(FormatError)
    else
      var width := DecimalValue(w[..m]);
      Prefixed(if left then PadRight(arg, width) else PadLeft(arg, width), Format(w[m + 1..], args))
  }

  // ---------------------------------------------------------------------
  // The status line
  // ---------------------------------------------------------------------

  /** The format string of the status line, before the message. */
  const BarTemplate: string := "[{0}{1}] {2,3}% {3} - "

  /** The four arguments: the filled blocks, the empty blocks, the percent
      and the spinner glyph. */
  function BarArgs(blocks: nat, percent: nat, glyph: char): seq<string>
    requires blocks <= BlockCount
  {
    [Repeat('#', blocks), Repeat('-', BlockCount - blocks), NatToString(percent), [glyph]]
  }

  /** The status line up to the message. */
  function BarPrefix(blocks: nat, percent: nat, glyph: char): string
    requires blocks <= BlockCount
  {
    "[" + Repeat('#', blocks) + Repeat('-', BlockCount - blocks) + "] " +
    PadLeft(NatToString(percent), 3) + "% " + [glyph] + " - "
  }

  /** The status line with the message appended as it is: ten cells of
      `blocks` '#' then '-' between brackets, and the message at the end of a
      line 22 characters longer than the message (for a percent of at most
      three digits). */
  function BarText(blocks: nat, percent: nat, glyph: char, message: string): (t: string)
    requires blocks <= BlockCount
    ensures |t| > BlockCount + 1 && t[0] == '[' && t[BlockCount + 1] == ']'
    ensures forall k :: 1 <= k <= BlockCount ==> t[k] == if k <= blocks then '#' else '-'
    ensures |t| >= |message| && t[|t| - |message|..] == message
    ensures percent < 1000 ==> |t| == 22 + |message|
  {
    var hashes := Repeat('#', blocks);
    var dashes := Repeat('-', BlockCount - blocks);
    var bar := "[" + hashes + dashes;
    assert forall k :: 1 <= k <= BlockCount ==> bar[k] == if k <= blocks then '#' else '-' by {
      forall k | 1 <= k <= BlockCount
        ensures bar[k] == if k <= blocks then '#' else '-'
      {
        if k <= blocks {
          assert bar[k] == hashes[k - 1];
        } else {
          assert bar[k] == dashes[k - 1 - blocks];
        }
      }
    }
    NatToStringShort(percent);
    var head := bar + "] " + PadLeft(NatToString(percent), 3) + "% " + [glyph] + " - ";
    assert head == BarPrefix(blocks, percent, glyph);
    assert (head + message)[|head|..] == message;
    head + message
  }

  /** Numbers below 1000 have at most three digits. */
  lemma {:induction false} NatToStringShort(n: nat)
    ensures n < 1000 ==> |NatToString(n)| <= 3
  {
    if 10 <= n < 1000 {
      if n >= 100 {
        assert NatToString(n / 10 / 10) == [DigitChar(n / 10 / 10)];
      }
      assert |NatToString(n / 10)| <= 2;
    }
  }

  /** What the source's `string.Format` call produces: the message is part of
      the format string. */
  function TickTextAsWritten(blocks: nat, percent: nat, glyph: char, message: string)
    : (r: Result<string, FormatError>)
    requires blocks <= BlockCount
    ensures r == Prefixed(BarPrefix(blocks, percent, glyph), Format(message, BarArgs(blocks, percent, glyph)))
  {
    TemplateThenMessage(blocks, percent, glyph, message);
    Format(BarTemplate + message, BarArgs(blocks, percent, glyph))
  }

  // ---------------------------------------------------------------------
  // Evaluating the template
  // ---------------------------------------------------------------------

  lemma PrefixedAssoc(a: string, b: string, r: Result<string, FormatError>)
    ensures Prefixed(a, Prefixed(b, r)) == Prefixed(a + b, r)
  {
    if r.Success? {
      assert a + (b + r.value) == (a + b) + r.value;
    }
  }

  predicate BraceFree(s: string)
  {
    forall k :: 0 <= k < |s| ==> s[k] != '{' && s[k] != '}'
  }

  /** Text without braces is copied to the output. */
  lemma {:induction false} FormatLiteral(lit: string, g: string, args: seq<string>)
    requires BraceFree(lit)
    ensures Format(lit + g, args) == Prefixed(lit, Format(g, args))
    decreases |lit|
  {
    if lit == [] {
      assert lit + g == g;
      if Format(g, args).Success? {
        assert lit + Format(g, args).value == Format(g, args).value;
      }
    } else {
      var f := lit + g;
      assert f[0] == lit[0] && f[1..] == lit[1..] + g;
      assert BraceFree(lit[1..]) by {
        forall k | 0 <= k < |lit| - 1 ensures lit[1..][k] != '{' && lit[1..][k] != '}' {
          assert lit[1..][k] == lit[k + 1];
        }
      }
      FormatLiteral(lit[1..], g, args);
      PrefixedAssoc([lit[0]], lit[1..], Format(g, args));
      assert [lit[0]] + lit[1..] == lit;
    }
  }

  /** A one-digit number reads back as itself. */
  lemma DigitValue(i: nat)
    requires i < 10
    ensures AllDigits([DigitChar(i)]) && DecimalValue([DigitChar(i)]) == i
  {
    assert [DigitChar(i)][..0] == [];
  }

  /** A digit followed by a non-digit starts with one digit. */
  lemma OneLeadingDigit(i: nat, rest: string)
    requires i < 10 && rest != [] && !IsDigit(rest[0])
    ensures LeadingDigits([DigitChar(i)] + rest) == 1
    ensures ([DigitChar(i)] + rest)[..1] == [DigitChar(i)]
  {
    assert ([DigitChar(i)] + rest)[1..] == rest;
  }

  /** `{i}` with a one-digit index is replaced by argument `i`. */
  lemma FormatPlainItem(i: nat, g: string, args: seq<string>)
    requires i < 10 && i < |args|
    ensures Format("{" + [DigitChar(i)] + "}" + g, args) == Prefixed(args[i], Format(g, args))
  {
    var s := [DigitChar(i)] + ("}" + g);
    assert ("{" + [DigitChar(i)] + "}" + g)[1..] == s;
    OneLeadingDigit(i, "}" + g);
    DigitValue(i);
    assert s[2..] == g;
  }

  /** A one-digit width closed by `}` right-aligns the argument. */
  lemma FormatWidth(arg: string, w: nat, g: string, args: seq<string>)
    requires w < 10
    ensures FormatAligned(arg, [DigitChar(w)] + ("}" + g), args) == Prefixed(PadLeft(arg, w), Format(g, args))
  {
    var spec := [DigitChar(w)] + ("}" + g);
    assert spec[0] == DigitChar(w);
    OneLeadingDigit(w, "}" + g);
    DigitValue(w);
    assert spec[2..] == g;
  }

  /** A one-digit index followed by a comma selects the argument to align. */
  lemma FormatIndexThenWidth(i: nat, spec: string, args: seq<string>)
    requires i < 10 && i < |args|
    ensures FormatItem([DigitChar(i)] + ("," + spec), args) == FormatAligned(args[i], spec, args)
  {
    var s := [DigitChar(i)] + ("," + spec);
    OneLeadingDigit(i, "," + spec);
    DigitValue(i);
    assert s[2..] == spec;
  }

  /** `{i,w}` with one-digit index and width is replaced by argument `i`
      right-aligned in `w` columns. */
  lemma FormatAlignedItem(i: nat, w: nat, g: string, args: seq<string>)
    requires i < 10 && w < 10 && i < |args|
    ensures Format("{" + [DigitChar(i)] + "," + [DigitChar(w)] + "}" + g, args) ==
      Prefixed(PadLeft(args[i], w), Format(g, args))
  {
    var spec := [DigitChar(w)] + ("}" + g);
    var s := [DigitChar(i)] + ("," + spec);
    var f := "{" + [DigitChar(i)] + "," + [DigitChar(w)] + "}" + g;
    assert f[1..] == s;
    assert f[1] == DigitChar(i);
    FormatIndexThenWidth(i, spec, args);
    FormatWidth(args[i], w, g, args);
  }

  /** The template is the bar part followed by the percent part. */
  lemma TemplateHalves(message: string)
    ensures BarTemplate + message == "[{0}{1}] " + ("{2,3}% {3} - " + message)
  {
  }

  /** The part of the template after the percent formats to "% ", the
      glyph and the separator. */
  lemma TemplateGlyph(message: string, args: seq<string>)
    requires |args| == 4
    ensures Format("% {3} - " + message, args) == Prefixed("% " + args[3] + " - ", Format(message, args))
  {
    var m := Format(message, args);
    var g7 := " - " + message;
    var g6 := "{3}" + g7;
    assert "% {3} - " + message == "% " + g6;
    assert g6 == "{" + [DigitChar(3)] + "}" + g7;
    FormatLiteral(" - ", message, args);
    FormatPlainItem(3, g7, args);
    PrefixedAssoc(args[3], " - ", m);
    FormatLiteral("% ", g6, args);
    PrefixedAssoc("% ", args[3] + " - ", m);
    assert "% " + (args[3] + " - ") == "% " + args[3] + " - ";
  }

  /** The part of the template from the percent on formats to the aligned
      percent, the glyph and the separator. */
  lemma TemplateTail(message: string, args: seq<string>)
    requires |args| == 4
    ensures Format("{2,3}% {3} - " + message, args) ==
      Prefixed(PadLeft(args[2], 3) + "% " + args[3] + " - ", Format(message, args))
  {
    var g5 := "% {3} - " + message;
    assert "{2,3}% {3} - " + message == "{" + [DigitChar(2)] + "," + [DigitChar(3)] + "}" + g5;
    TemplateGlyph(message, args);
    FormatAlignedItem(2, 3, g5, args);
    GlyphAfterPercent(Format("{2,3}% {3} - " + message, args), Format(g5, args), Format(message, args),
      PadLeft(args[2], 3), args[3]);
  }

  /** Chaining the two prefixes of `TemplateTail`. */
  lemma GlyphAfterPercent(x: Result<string, FormatError>, y: Result<string, FormatError>,
                          m: Result<string, FormatError>, percent: string, glyph: string)
    requires x == Prefixed(percent, y) && y == Prefixed("% " + glyph + " - ", m)
    ensures x == Prefixed(percent + "% " + glyph + " - ", m)
  {
    PrefixedAssoc(percent, "% " + glyph + " - ", m);
    assert percent + ("% " + glyph + " - ") == percent + "% " + glyph + " - ";
  }

  /** The part of the template up to the percent formats to the bar. */
  lemma TemplateHead(rest: string, args: seq<string>)
    requires |args| == 4
    ensures Format("[{0}{1}] " + rest, args) ==
      Prefixed("[" + args[0] + args[1] + "] ", Format(rest, args))
  {
    var r := Format(rest, args);
    var g3 := "] " + rest;
    var g2 := "{1}" + g3;
    var g1 := "{0}" + g2;
    assert "[{0}{1}] " + rest == "[" + g1;
    assert g1 == "{" + [DigitChar(0)] + "}" + g2;
    assert g2 == "{" + [DigitChar(1)] + "}" + g3;
    FormatLiteral("] ", rest, args);
    FormatPlainItem(1, g3, args);
    PrefixedAssoc(args[1], "] ", r);
    FormatPlainItem(0, g2, args);
    PrefixedAssoc(args[0], args[1] + "] ", r);
    FormatLiteral("[", g1, args);
    PrefixedAssoc("[", args[0] + (args[1] + "] "), r);
    assert "[" + (args[0] + (args[1] + "] ")) == "[" + args[0] + args[1] + "] ";
  }

  /** The status-line prefix is the bar arguments in their places. */
  lemma BarPrefixFromArgs(blocks: nat, percent: nat, glyph: char)
    requires blocks <= BlockCount
    ensures var args := BarArgs(blocks, percent, glyph);
      BarPrefix(blocks, percent, glyph) ==
        ("[" + args[0] + args[1] + "] ") + (PadLeft(args[2], 3) + "% " + args[3] + " - ")
  {
  }

  /** The template formats to the status-line prefix, after which the
      message is parsed as format text of its own. */
  lemma TemplateThenMessage(blocks: nat, percent: nat, glyph: char, message: string)
    requires blocks <= BlockCount
    ensures Format(BarTemplate + message, BarArgs(blocks, percent, glyph)) ==
      Prefixed(BarPrefix(blocks, percent, glyph), Format(message, BarArgs(blocks, percent, glyph)))
  {
    var args := BarArgs(blocks, percent, glyph);
    TemplateHalves(message);
    TemplateHead("{2,3}% {3} - " + message, args);
    TemplateTail(message, args);
    PrefixedAssoc("[" + args[0] + args[1] + "] ", PadLeft(args[2], 3) + "% " + args[3] + " - ",
      Format(message, args));
    BarPrefixFromArgs(blocks, percent, glyph);
  }

  /** For a message without braces the source's call yields the status
      line. */
  lemma BraceFreeMessageAgrees(blocks: nat, percent: nat, glyph: char, message: string)
    requires blocks <= BlockCount && BraceFree(message)
    ensures TickTextAsWritten(blocks, percent, glyph, message) ==
      Success(BarText(blocks, percent, glyph, message))
  {
    var args := BarArgs(blocks, percent, glyph);
    FormatLiteral(message, [], args);
    assert message + [] == message;
  }

  /** A message holding a `{` that opens no format item (as a file name
      such as `{draft}.docx` in a progress message does) makes the source's
      `string.Format` throw. */
  lemma LoneBraceMessageThrows(blocks: nat, percent: nat, glyph: char)
    requires blocks <= BlockCount
    ensures TickTextAsWritten(blocks, percent, glyph, "{").Failure?
  {
    assert LeadingDigits("{"[1..]) == 0;
  }

  /** A message holding `{0}` is not shown: the filled blocks are shown in
      its place. */
  lemma ItemMessageSubstituted(blocks: nat, percent: nat, glyph: char)
    requires blocks <= BlockCount
    ensures TickTextAsWritten(blocks, percent, glyph, "{0}") ==
      Success(BarPrefix(blocks, percent, glyph) + Repeat('#', blocks))
  {
    var args := BarArgs(blocks, percent, glyph);
    assert "{0}" == "{" + [DigitChar(0)] + "}" + [];
    FormatPlainItem(0, [], args);
    assert Format("{0}", args) == Success(Repeat('#', blocks)) by {
      assert Repeat('#', blocks) + [] == Repeat('#', blocks);
    }
  }
}
