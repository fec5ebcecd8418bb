/** Redrawing one console line in place, as the progress bar's `UpdateText`
    does: the text already on the line is edited into the new text by
    backspacing to the first difference, writing the new suffix and blanking
    what the new text no longer covers. A one-line terminal gives the emitted
    characters their meaning. */
module ConsoleRedraw {
  import opened Text

  /** `'\b'`: moves the cursor one cell to the left without erasing. */
  const Backspace: char := 8 as char

  /** Text without control characters: every character occupies one cell. */
  predicate Printable(t: string)
  {
    forall k :: 0 <= k < |t| ==> t[k] >= ' '
  }

  // ---------------------------------------------------------------------
  // Common prefix
  // ---------------------------------------------------------------------

  /** `p` is where `a` and `b` first differ: they agree below `p`, and at `p`
      one of them has ended or their characters differ. */
  predicate MaximalCommonPrefix(a: string, b: string, p: nat)
  {
    p <= |a| && p <= |b| && a[..p] == b[..p] &&
    (p == |a| || p == |b| || a[p] != b[p])
  }

  /** The length of the longest common prefix of `a` and `b`. */
  function CommonPrefixLength(a: string, b: string): (p: nat)
    ensures MaximalCommonPrefix(a, b, p)
  {
    if a == [] || b == [] || a[0] != b[0] then 0
    else
      var q := CommonPrefixLength(a[1..], b[1..]);
      assert a[..q + 1] == [a[0]] + a[1..][..q];
      assert b[..q + 1] == [b[0]] + b[1..][..q];
      1 + q
  }

  /** There is only one place where two strings first differ. */
  lemma CommonPrefixUnique(a: string, b: string, p: nat, q: nat)
    requires MaximalCommonPrefix(a, b, p) && MaximalCommonPrefix(a, b, q)
    ensures p == q
  {
  }

  // ---------------------------------------------------------------------
  // The emitted characters
  // ---------------------------------------------------------------------

  /** What `UpdateText` writes to go from `shown` to `text`: backspaces back
      to the first difference, the rest of `text`, and, when `text` is
      shorter, as many blanks as it is shorter followed by as many
      backspaces. */
  function Redraw(shown: string, text: string): (r: string)
    ensures |shown| <= |text| && text[..|shown|] == shown ==> r == text[|shown|..]
  {
    var p := CommonPrefixLength(shown, text);
    var d := if |shown| > |text| then |shown| - |text| else 0;
    ExtendedPrefix(shown, text);
    assert d == 0 ==> Repeat(' ', d) + Repeat(Backspace, d) == [];
    (Repeat(Backspace, |shown| - p) + text[p..]) + (Repeat(' ', d) + Repeat(Backspace, d))
  }

  /** When `text` extends `shown`, all of `shown` is common. */
  lemma ExtendedPrefix(shown: string, text: string)
    ensures |shown| <= |text| && text[..|shown|] == shown ==> CommonPrefixLength(shown, text) == |shown|
  {
  }

  // ---------------------------------------------------------------------
  // A one-line terminal
  // ---------------------------------------------------------------------

  /** The cells of the line written so far and the cursor column. */
  datatype Screen = Screen(cells: string, cursor: nat)

  /** An untouched line. */
  const EmptyLine: Screen := Screen([], 0)

  /** One character: a backspace moves left (not past column 0); any other
      character is written at the cursor, overwriting or extending the line,
      and the cursor moves right. */
  function Put(s: Screen, ch: char): Screen
  {
    if ch == Backspace then Screen(s.cells, if s.cursor == 0 then 0 else s.cursor - 1)
    else if s.cursor < |s.cells| then Screen(s.cells[s.cursor := ch], s.cursor + 1)
    else Screen(s.cells + [ch], s.cursor + 1)
  }

  /** The line after writing `out` character by character. */
  function Play(s: Screen, out: string): Screen
  {
    if out == [] then s else Put(Play(s, out[..|out| - 1]), out[|out| - 1])
  }

  /** The line shows `t`: the cells start with `t`, every cell after it is
      blank, and the cursor stands right after `t`. */
  predicate Shows(s: Screen, t: string)
  {
    s.cursor == |t| && |t| <= |s.cells| && s.cells[..|t|] == t &&
    forall k :: |t| <= k < |s.cells| ==> s.cells[k] == ' '
  }

  /** The cells after writing printable `w` at column `i`. */
  function Overwrite(cells: string, i: nat, w: string): (r: string)
    requires i <= |cells|
    ensures |r| == if i + |w| <= |cells| then |cells| else i + |w|
  {
    if i + |w| <= |cells| then cells[..i] + w + cells[i + |w|..] else cells[..i] + w
  }

  /** Writing in two pieces is writing the whole. */
  lemma {:induction false} PlayAppend(s: Screen, a: string, b: string)
    ensures Play(s, a + b) == Play(Play(s, a), b)
    decreases |b|
  {
    if b == [] {
      assert a + b == a;
    } else {
      assert (a + b)[..|a + b| - 1] == a + b[..|b| - 1];
      PlayAppend(s, a, b[..|b| - 1]);
    }
  }

  /** `k` backspaces move the cursor `k` cells left and change no cell. */
  lemma {:induction false} PlayBackspaces(s: Screen, k: nat)
    requires k <= s.cursor
    ensures Play(s, Repeat(Backspace, k)) == Screen(s.cells, s.cursor - k)
  {
    if k > 0 {
      assert Repeat(Backspace, k)[..k - 1] == Repeat(Backspace, k - 1);
      PlayBackspaces(s, k - 1);
    }
  }

  /** Printable text overwrites the line from the cursor on. */
  lemma {:induction false} PlayWrite(s: Screen, w: string)
    requires s.cursor <= |s.cells| && Printable(w)
    ensures Play(s, w) == Screen(Overwrite(s.cells, s.cursor, w), s.cursor + |w|)
    decreases |w|
  {
    if w != [] {
      var v := w[..|w| - 1];
      PlayWrite(s, v);
      assert w == v + [w[|w| - 1]] && w[|w| - 1] >= ' ';
      OverwriteSnoc(s.cells, s.cursor, v, w[|w| - 1]);
    }
  }

  /** One more printable character after an overwrite extends it. */
  lemma OverwriteSnoc(cells: string, i: nat, v: string, ch: char)
    requires i <= |cells| && ch != Backspace
    ensures Put(Screen(Overwrite(cells, i, v), i + |v|), ch) == Screen(Overwrite(cells, i, v + [ch]), i + |v| + 1)
  {
    var before := Overwrite(cells, i, v);
    if i + |v| < |cells| {
      assert before[i + |v| := ch] == cells[..i] + (v + [ch]) + cells[i + |v| + 1..];
    } else {
      assert before + [ch] == cells[..i] + (v + [ch]);
    }
  }

  // ---------------------------------------------------------------------
  // What the redraw achieves
  // ---------------------------------------------------------------------

  /** The cells after the redraw from `shown` to `text`: the rest of `text`
      written from the first difference, then, when `text` is shorter,
      blanks over what it no longer covers. */
  function RedrawCells(cells: string, shown: string, text: string): string
    requires |shown| <= |cells|
  {
    var p := CommonPrefixLength(shown, text);
    var written := Overwrite(cells, p, text[p..]);
    if |shown| > |text| then Overwrite(written, |text|, Repeat(' ', |shown| - |text|))
    else written
  }

  /** A suffix of printable text is printable. */
  lemma PrintableSuffix(t: string, p: nat)
    requires p <= |t| && Printable(t)
    ensures Printable(t[p..])
  {
    forall k | 0 <= k < |t| - p ensures t[p..][k] >= ' ' {
      assert t[p..][k] == t[p + k];
    }
  }

  /** Backspacing to column `p` and writing printable `w` overwrites the
      line from `p` on. */
  lemma PlayBackAndWrite(s: Screen, p: nat, w: string)
    requires p <= s.cursor <= |s.cells| && Printable(w)
    ensures Play(s, Repeat(Backspace, s.cursor - p) + w) ==
      Screen(Overwrite(s.cells, p, w), p + |w|)
  {
    PlayAppend(s, Repeat(Backspace, s.cursor - p), w);
    PlayBackspaces(s, s.cursor - p);
    PlayWrite(Screen(s.cells, p), w);
  }

  /** `d` blanks followed by `d` backspaces blank `d` cells from the cursor
      and return to it. */
  lemma PlayBlanking(s: Screen, d: nat)
    requires s.cursor <= |s.cells|
    ensures Play(s, Repeat(' ', d) + Repeat(Backspace, d)) ==
      Screen(Overwrite(s.cells, s.cursor, Repeat(' ', d)), s.cursor)
  {
    PlayAppend(s, Repeat(' ', d), Repeat(Backspace, d));
    PlayWrite(s, Repeat(' ', d));
    PlayBackspaces(Play(s, Repeat(' ', d)), d);
  }

  /** Backspacing to column `p`, writing `w`, then blanking `d` cells: the
      two parts of a redraw, played one after the other. */
  lemma PlayHeadTail(s: Screen, p: nat, w: string, d: nat)
    requires p <= s.cursor <= |s.cells| && Printable(w)
    ensures Play(s, (Repeat(Backspace, s.cursor - p) + w) + (Repeat(' ', d) + Repeat(Backspace, d)))
      == Screen(Overwrite(Overwrite(s.cells, p, w), p + |w|, Repeat(' ', d)), p + |w|)
  {
    var head := Repeat(Backspace, s.cursor - p) + w;
    PlayAppend(s, head, Repeat(' ', d) + Repeat(Backspace, d));
    PlayBackAndWrite(s, p, w);
    PlayBlanking(Screen(Overwrite(s.cells, p, w), p + |w|), d);
  }

  /** On the terminal, the redraw leaves `RedrawCells` with the cursor after
      `text`. */
  lemma PlayRedraw(s: Screen, shown: string, text: string)
    requires s.cursor == |shown| <= |s.cells| && Printable(text)
    ensures Play(s, Redraw(shown, text)) == Screen(RedrawCells(s.cells, shown, text), |text|)
  {
    var p := CommonPrefixLength(shown, text);
    var d := if |shown| > |text| then |shown| - |text| else 0;
    assert Redraw(shown, text) == (Repeat(Backspace, s.cursor - p) + text[p..]) + (Repeat(' ', d) + Repeat(Backspace, d));
    PrintableSuffix(text, p);
    PlayHeadTail(s, p, text[p..], d);
    RedrawCellsBlanked(s.cells, shown, text);
  }

  /** `RedrawCells` as the rest of `text` written from the first
      difference, then the blanks (none when `text` is not shorter). */
  lemma RedrawCellsBlanked(cells: string, shown: string, text: string)
    requires |shown| <= |cells|
    ensures var p := CommonPrefixLength(shown, text);
      var d := if |shown| > |text| then |shown| - |text| else 0;
      p + |text[p..]| == |text| &&
      RedrawCells(cells, shown, text) == Overwrite(Overwrite(cells, p, text[p..]), |text|, Repeat(' ', d))
  {
    var p := CommonPrefixLength(shown, text);
    var written := Overwrite(cells, p, text[p..]);
    if |shown| <= |text| {
      assert Overwrite(written, |text|, Repeat(' ', 0)) == written;
    }
  }

  /** Cells that agree with `text` below `p` and hold `text[p..]` from `p` on
      start with `text`. */
  lemma PrefixJoin(cells: string, text: string, p: nat)
    requires p <= |text| <= |cells|
    requires cells[..p] == text[..p] && cells[p..|text|] == text[p..]
    ensures cells[..|text|] == text
  {
    assert cells[..|text|] == cells[..p] + cells[p..|text|];
    assert text == text[..p] + text[p..];
  }

  /** Writing the rest of `text` from the first difference puts `text` at the
      start of the line and keeps every cell after it. */
  lemma WrittenCells(cells: string, shown: string, text: string)
    requires |shown| <= |cells| && cells[..|shown|] == shown
    ensures var p := CommonPrefixLength(shown, text);
      var w := Overwrite(cells, p, text[p..]);
      |w| == (if |text| <= |cells| then |cells| else |text|) &&
      w[..|text|] == text && forall k :: |text| <= k < |cells| ==> w[k] == cells[k]
  {
    var p := CommonPrefixLength(shown, text);
    var w := Overwrite(cells, p, text[p..]);
    assert cells[..p] == shown[..p] == text[..p] by {
      assert cells[..p] == cells[..|shown|][..p];
    }
    PrefixJoin(w, text, p);
  }

  /** Blanking `d` cells from column `i` keeps the cells before `i`. */
  lemma BlankedCells(cells: string, i: nat, d: nat)
    requires i + d <= |cells|
    ensures var b := Overwrite(cells, i, Repeat(' ', d));
      |b| == |cells| && b[..i] == cells[..i] &&
      (forall k :: i <= k < i + d ==> b[k] == ' ') &&
      forall k :: i + d <= k < |cells| ==> b[k] == cells[k]
  {
    var b := Overwrite(cells, i, Repeat(' ', d));
    forall k | i <= k < i + d ensures b[k] == ' ' {
      assert b[k] == Repeat(' ', d)[k - i];
    }
  }

  /** Replaying the redraw on a line that shows `shown` leaves it showing
      `text`, with the cursor right after it. */
  lemma RedrawReplay(s: Screen, shown: string, text: string)
    requires Shows(s, shown) && Printable(text)
    ensures Shows(Play(s, Redraw(shown, text)), text)
  {
    PlayRedraw(s, shown, text);
    WrittenCells(s.cells, shown, text);
    var p := CommonPrefixLength(shown, text);
    var w := Overwrite(s.cells, p, text[p..]);
    if |shown| > |text| {
      BlankedCells(w, |text|, |shown| - |text|);
    }
  }

  /** A line that shows `shown` after `console` was written shows `text`
      once the redraw is written after it. */
  lemma ConsoleAfterRedraw(console: string, shown: string, text: string)
    requires Shows(Play(EmptyLine, console), shown) && Printable(text)
    ensures Shows(Play(EmptyLine, console + Redraw(shown, text)), text)
  {
    PlayAppend(EmptyLine, console, Redraw(shown, text));
    RedrawReplay(Play(EmptyLine, console), shown, text);
  }

  /** Redrawing the text already shown writes nothing. */
  lemma RedrawIdempotent(t: string)
    ensures Redraw(t, t) == []
  {
    var p := CommonPrefixLength(t, t);
    assert p == |t|;
  }

  /** Redrawing to the empty text erases the line: as many backspaces,
      blanks and backspaces as the shown text is long, after which the line
      is blank with the cursor at column 0. */
  lemma ClearLine(s: Screen, shown: string)
    requires Shows(s, shown)
    ensures Redraw(shown, "") ==
      Repeat(Backspace, |shown|) + Repeat(' ', |shown|) + Repeat(Backspace, |shown|)
    ensures var r := Play(s, Redraw(shown, ""));
      r.cursor == 0 && forall k :: 0 <= k < |r.cells| ==> r.cells[k] == ' '
  {
    var p := CommonPrefixLength(shown, "");
    assert p == 0;
    if |shown| == 0 {
      assert Redraw(shown, "") == [];
    }
    RedrawReplay(s, shown, "");
  }
}
