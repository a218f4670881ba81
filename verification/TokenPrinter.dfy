/**
 The CLI's streaming think-tag filter.

 The printer is proved to show, for any way the text arrives, what a one-shot filter of
 the whole text shows: the tags removed, thinking in grey, the rest not, and a line break
 where thinking ends in the middle of a line.
 */
module TokenPrinter {
  import opened Strings
  import opened ThinkTags

  /** What is written to the terminal: a byte, or one of the two colour sequences. */
  datatype Event = Byte(c: char) | Grey | Reset

  datatype Printer = Printer(
    tags: Think,
    useColor: bool,
    inThink: bool,
    colorOpen: bool,
    lastNewline: bool,
    pending: string,
    out: seq<Event>)

  /** token_printer_write_char */
  function WriteChar(p: Printer, c: char): (q: Printer)
    ensures q.tags == p.tags && q.pending == p.pending
  {
    var g := if p.inThink && p.useColor && !p.colorOpen
             then p.(out := p.out + [Grey], colorOpen := true) else p;
    g.(out := g.out + [Byte(c)], lastNewline := c == '\n')
  }

  /** token_printer_reset_color */
  function ResetColor(p: Printer): (q: Printer)
    ensures q.tags == p.tags && q.pending == p.pending
  {
    if p.useColor && p.colorOpen then p.(out := p.out + [Reset], colorOpen := false) else p
  }

  function OpenTag(p: Printer): (q: Printer)
    ensures q.tags == p.tags && q.pending == p.pending
  {
    p.(inThink := true)
  }

  function CloseTag(p: Printer): (q: Printer)
    ensures q.tags == p.tags && q.pending == p.pending
  {
    var g := ResetColor(p.(inThink := false));
    if g.lastNewline then g else g.(out := g.out + [Byte('\n')], lastNewline := true)
  }

  /** One pass of the loop: hold the rest back, or consume `n` bytes. */
  datatype Move = Hold | Eat(n: nat, q: Printer)

  function NextMove(p: Printer, buf: string, finish: bool): (m: Move)
    requires p.tags.Shape() && buf != ""
    ensures m.Eat? ==> 0 < m.n <= |buf| && m.q.tags == p.tags && m.q.pending == p.pending
  {
    var t := p.tags;
    if t.open <= buf then Eat(|t.open|, OpenTag(p))
    else if t.close <= buf then Eat(|t.close|, CloseTag(p))
    else if !finish && HoldBack(t, buf) then Hold
    else Eat(1, WriteChar(p, buf[0]))
  }

  /** The loop of token_printer_process. */
  function Run(p: Printer, buf: string, finish: bool): (q: Printer)
    requires p.tags.Shape()
    ensures q.tags == p.tags
    decreases |buf|
  {
    if buf == "" then p
    else
      match NextMove(p, buf, finish)
      case Hold => p.(pending := buf)
      case Eat(n, q) => Run(q, buf[n..], finish)
  }

  /** token_printer_process(p, text, len, false) */
  function Process(p: Printer, text: string): (q: Printer)
    requires p.tags.Shape()
    ensures q.tags == p.tags
  {
    Run(p.(pending := ""), p.pending + text, false)
  }

  function ProcessAll(p: Printer, chunks: seq<string>): (q: Printer)
    requires p.tags.Shape()
    ensures q.tags == p.tags
    decreases |chunks|
  {
    if chunks == [] then p else ProcessAll(Process(p, chunks[0]), chunks[1..])
  }

  /** token_printer_finish */
  function Finish(p: Printer): (q: Printer)
    requires p.tags.Shape()
    ensures q.tags == p.tags
  {
    ResetColor(Run(p.(pending := ""), p.pending, true))
  }

  // ------------------------------------------------------------------------------------
  // Chunks do not matter
  // ------------------------------------------------------------------------------------

  lemma MoveAlike(p: Printer, a: string, b: string, finish: bool)
    requires p.tags.Shape() && a != "" && NextMove(p, a, false).Eat?
    ensures NextMove(p, a + b, finish) == NextMove(p, a, false)
  {
    hide OpenTag, CloseTag, WriteChar, HoldBack;
    DecidedAlike(p.tags, a, b);
    assert (a + b)[0] == a[0];
  }

  lemma {:induction false} RunSplit(p: Printer, a: string, b: string, finish: bool)
    requires p.tags.Shape() && p.pending == ""
    ensures var q := Run(p, a, false);
            Run(q.(pending := ""), q.pending + b, finish) == Run(p, a + b, finish)
    decreases |a|
  {
    hide NextMove, Think.Shape;
    if a == "" {
      assert p.(pending := "") == p;
      assert p.pending + b == a + b;
    } else {
      match NextMove(p, a, false)
      case Hold =>
        assert p.(pending := a).(pending := "") == p;
      case Eat(n, q) =>
        MoveAlike(p, a, b, finish);
        assert (a + b)[n..] == a[n..] + b;
        RunSplit(q, a[n..], b, finish);
    }
  }

  lemma {:induction false} ProcessConcat(p: Printer, chunks: seq<string>)
    requires p.tags.Shape()
    ensures chunks != [] ==> ProcessAll(p, chunks) == Process(p, Concat(chunks))
    decreases |chunks|
  {
    hide Run;
    if |chunks| == 1 {
      assert Concat(chunks) == chunks[0] + Concat(chunks[1..]) == chunks[0];
    } else if chunks != [] {
      var rest := Concat(chunks[1..]);
      ProcessConcat(Process(p, chunks[0]), chunks[1..]);
      RunSplit(p.(pending := ""), p.pending + chunks[0], rest, false);
      assert (p.pending + chunks[0]) + rest == p.pending + (chunks[0] + rest);
    }
  }

  lemma FinishIsOneShot(p: Printer, chunks: seq<string>)
    requires p.tags.Shape() && p.pending == ""
    ensures Finish(ProcessAll(p, chunks)) == ResetColor(Run(p, Concat(chunks), true))
  {
    hide Run;
    assert p.(pending := "") == p;
    if chunks != [] {
      var text := Concat(chunks);
      ProcessConcat(p, chunks);
      RunSplit(p, text, "", true);
      assert p.pending + text == text && text + "" == text;
      var q := Run(p, text, false);
      assert q.pending + "" == q.pending;
    }
  }

  // ------------------------------------------------------------------------------------
  // A one-shot reference: lex, then colour
  // ------------------------------------------------------------------------------------

  datatype Token = Open | Close | Text(c: char)

  /** The tags and bytes of a whole text, leftmost tag first. */
  function Lex(t: Think, s: string): seq<Token>
    requires t.Shape()
    decreases |s|
  {
    if s == "" then []
    else if t.open <= s then [Open] + Lex(t, s[|t.open|..])
    else if t.close <= s then [Close] + Lex(t, s[|t.close|..])
    else [Text(s[0])] + Lex(t, s[1..])
  }

  /** A byte on the screen. */
  datatype Cell = Cell(c: char, grey: bool)

  /** What the reader should see. */
  function Filter(toks: seq<Token>, thinking: bool, newline: bool, color: bool): seq<Cell> {
    if toks == [] then []
    else
      match toks[0]
      case Open => Filter(toks[1..], true, newline, color)
      case Close =>
        (if newline then [] else [Cell('\n', false)]) + Filter(toks[1..], false, true, color)
      case Text(c) => [Cell(c, color && thinking)] + Filter(toks[1..], thinking, c == '\n', color)
  }

  /** What a terminal shows for the written events. */
  datatype Screen = Screen(cells: seq<Cell>, grey: bool)

  function Show(out: seq<Event>): Screen {
    if out == [] then Screen([], false)
    else
      var s := Show(out[..|out| - 1]);
      match out[|out| - 1]
      case Byte(c) => s.(cells := s.cells + [Cell(c, s.grey)])
      case Grey => s.(grey := true)
      case Reset => s.(grey := false)
  }

  lemma ShowPush(out: seq<Event>, e: Event)
    ensures Show(out + [e]) ==
            var s := Show(out);
            match e
            case Byte(c) => s.(cells := s.cells + [Cell(c, s.grey)])
            case Grey => s.(grey := true)
            case Reset => s.(grey := false)
  {
    assert (out + [e])[..|out|] == out;
  }

  /** Nothing is shown on the current line. */
  ghost predicate AtLineStart(cells: seq<Cell>) {
    cells == [] || cells[|cells| - 1].c == '\n'
  }

  /** The printer knows the terminal's colour, and never leaves grey on outside thinking. */
  ghost predicate InStep(p: Printer) {
    && p.tags.Shape()
    && p.colorOpen == Show(p.out).grey
    && p.lastNewline == AtLineStart(Show(p.out).cells)
    && (p.colorOpen ==> p.useColor && p.inThink)
  }

  lemma WriteCharShows(p: Printer, c: char)
    requires InStep(p)
    ensures InStep(WriteChar(p, c))
    ensures Show(WriteChar(p, c).out).cells == Show(p.out).cells + [Cell(c, p.useColor && p.inThink)]
  {
    hide Show, Think.Shape;
    var g := if p.inThink && p.useColor && !p.colorOpen
             then p.(out := p.out + [Grey], colorOpen := true) else p;
    ShowPush(p.out, Grey);
    ShowPush(g.out, Byte(c));
  }

  lemma CloseTagShows(p: Printer)
    requires InStep(p)
    ensures InStep(CloseTag(p))
    ensures Show(CloseTag(p).out).cells
         == Show(p.out).cells + if p.lastNewline then [] else [Cell('\n', false)]
  {
    hide Show, Think.Shape;
    var g := ResetColor(p.(inThink := false));
    ShowPush(p.out, Reset);
    ShowPush(g.out, Byte('\n'));
  }

  /** What the filter makes of the rest of a text. */
  function Rest(p: Printer, text: string): seq<Cell>
    requires p.tags.Shape()
  {
    Filter(Lex(p.tags, text), p.inThink, p.lastNewline, p.useColor)
  }

  lemma OpenTagMove(p: Printer, text: string)
    requires InStep(p) && text != "" && p.tags.open <= text
    ensures var m := NextMove(p, text, true);
            m.Eat? && InStep(m.q) && Show(m.q.out).cells == Show(p.out).cells
            && Rest(p, text) == Rest(m.q, text[m.n..])
  {
    var rest := Lex(p.tags, text[|p.tags.open|..]);
    assert ([Open] + rest)[1..] == rest;
  }

  lemma CloseTagMove(p: Printer, text: string)
    requires InStep(p) && text != "" && !(p.tags.open <= text) && p.tags.close <= text
    ensures var m := NextMove(p, text, true);
            m.Eat? && InStep(m.q)
            && Show(p.out).cells + Rest(p, text) == Show(m.q.out).cells + Rest(m.q, text[m.n..])
  {
    hide Show, InStep, CloseTag, Lex, Filter;
    assert p.tags.Shape() by { InStepShape(p); }
    var rest := Lex(p.tags, text[|p.tags.close|..]);
    LexClose(p.tags, text);
    FilterClose(rest, p.inThink, p.lastNewline, p.useColor);
    CloseTagShows(p);
    CloseTagFields(p);
    var gap := if p.lastNewline then [] else [Cell('\n', false)];
    assert Show(p.out).cells + (gap + Filter(rest, false, true, p.useColor))
        == (Show(p.out).cells + gap) + Filter(rest, false, true, p.useColor);
  }

  lemma LexClose(t: Think, text: string)
    requires t.Shape() && text != "" && !(t.open <= text) && t.close <= text
    ensures Lex(t, text) == [Close] + Lex(t, text[|t.close|..])
  {
  }

  lemma FilterClose(toks: seq<Token>, thinking: bool, newline: bool, color: bool)
    ensures Filter([Close] + toks, thinking, newline, color)
         == (if newline then [] else [Cell('\n', false)]) + Filter(toks, false, true, color)
  {
    assert ([Close] + toks)[1..] == toks;
  }

  lemma CloseTagFields(p: Printer)
    ensures !CloseTag(p).inThink && CloseTag(p).lastNewline && CloseTag(p).useColor == p.useColor
  {
  }

  lemma ByteMove(p: Printer, text: string)
    requires InStep(p) && text != "" && !(p.tags.open <= text) && !(p.tags.close <= text)
    ensures var m := NextMove(p, text, true);
            m.Eat? && InStep(m.q)
            && Show(p.out).cells + Rest(p, text) == Show(m.q.out).cells + Rest(m.q, text[m.n..])
  {
    hide Show, InStep;
    assert p.tags.Shape() by { InStepShape(p); }
    var rest := Lex(p.tags, text[1..]);
    assert ([Text(text[0])] + rest)[1..] == rest;
    WriteCharShows(p, text[0]);
    var grey := p.useColor && p.inThink;
    Assoc(Show(p.out).cells, [Cell(text[0], grey)], Filter(rest, p.inThink, text[0] == '\n', p.useColor));
  }

  lemma {:induction false} RunShows(p: Printer, text: string)
    requires InStep(p)
    ensures InStep(Run(p, text, true))
    ensures Show(Run(p, text, true).out).cells == Show(p.out).cells + Rest(p, text)
    decreases |text|
  {
    hide Show, InStep, NextMove, Rest;
    assert p.tags.Shape() by { InStepShape(p); }
    if text == "" {
      assert Rest(p, text) == [] by { RestEmpty(p); }
      assert Show(p.out).cells + [] == Show(p.out).cells;
    } else {
      if p.tags.open <= text {
        OpenTagMove(p, text);
      } else if p.tags.close <= text {
        CloseTagMove(p, text);
      } else {
        ByteMove(p, text);
      }
      var m := NextMove(p, text, true);
      RunShows(m.q, text[m.n..]);
    }
  }

  lemma RestEmpty(p: Printer)
    requires p.tags.Shape()
    ensures Rest(p, "") == []
  {
  }

  lemma InStepShape(p: Printer)
    requires InStep(p)
    ensures p.tags.Shape()
  {
  }

  function NewPrinter(t: Think, useColor: bool, inThink: bool): Printer {
    Printer(t, useColor, inThink, false, true, "", [])
  }

  /**
   For every text and every way it arrives, the terminal shows the one-shot filter of the
   whole text and is left in the normal colour.
   */
  lemma ShowsFilteredText(t: Think, useColor: bool, inThink: bool, chunks: seq<string>)
    requires t.Shape()
    ensures var q := Finish(ProcessAll(NewPrinter(t, useColor, inThink), chunks));
            Show(q.out) == Screen(Filter(Lex(t, Concat(chunks)), inThink, true, useColor), false)
  {
    hide Run, Lex, Filter, ProcessAll, Process;
    var p := NewPrinter(t, useColor, inThink);
    var text := Concat(chunks);
    FinishIsOneShot(p, chunks);
    assert InStep(p);
    RunShows(p, text);
    var r := Run(p, text, true);
    ShowPush(r.out, Reset);
    assert Show(p.out).cells == [];
    assert [] + Rest(p, text) == Rest(p, text);
  }

  /** The output is ended by a line break, unless it already was. */
  function EndLine(p: Printer): Printer {
    if p.lastNewline then p else p.(out := p.out + [Byte('\n')], lastNewline := true)
  }

  /** The filtered text, and a line break behind it if it does not end in one. */
  function Lined(cells: seq<Cell>): seq<Cell> {
    if cells == [] || cells[|cells| - 1].c == '\n' then cells else cells + [Cell('\n', false)]
  }

  /** At the end of a generation the screen shows the filtered text, ended by a line break. */
  lemma ShowsFilteredLines(t: Think, useColor: bool, inThink: bool, chunks: seq<string>)
    requires t.Shape()
    ensures var q := EndLine(Finish(ProcessAll(NewPrinter(t, useColor, inThink), chunks)));
            Show(q.out) == Screen(Lined(Filter(Lex(t, Concat(chunks)), inThink, true, useColor)), false)
  {
    hide Lex, Filter, ProcessAll, Show, Run, Process;
    var p := NewPrinter(t, useColor, inThink);
    ShowsFilteredText(t, useColor, inThink, chunks);
    FinishIsOneShot(p, chunks);
    assert InStep(p) by { NewInStep(t, useColor, inThink); }
    RunShows(p, Concat(chunks));
    var r := Run(p, Concat(chunks), true);
    ShowPush(r.out, Reset);
    var f := Finish(ProcessAll(p, chunks));
    assert Show(f.out).cells == Show(r.out).cells && f.lastNewline == r.lastNewline;
    ShowPush(f.out, Byte('\n'));
  }

  lemma NewInStep(t: Think, useColor: bool, inThink: bool)
    requires t.Shape()
    ensures InStep(NewPrinter(t, useColor, inThink))
  {
  }

  // ------------------------------------------------------------------------------------
  // The printer as an object
  // ------------------------------------------------------------------------------------

  /** Bytes written as they are. */
  function Bytes(s: string): (r: seq<Event>)
    ensures |r| == |s| && forall k :: 0 <= k < |s| ==> r[k] == Byte(s[k])
  {
    seq(|s|, i requires 0 <= i < |s| => Byte(s[i]))
  }

  /** A printer that does not format thinking copies its text. */
  function Copy(p: Printer, text: string): Printer {
    if text == "" then p
    else p.(out := p.out + Bytes(text), lastNewline := text[|text| - 1] == '\n')
  }

  class StreamPrinter {
    var state: Printer
    const formatThinking: bool

    constructor (t: Think, useColor: bool, thinking: bool)
      ensures state == NewPrinter(t, useColor, thinking) && formatThinking == thinking
    {
      state := NewPrinter(t, useColor, thinking);
      formatThinking := thinking;
    }

    /** One pass over the bytes not yet consumed; 0 when they are held back. */
    method Pass(rem: string, finish: bool) returns (n: nat)
      requires state.tags.Shape() && rem != ""
      modifies this`state
      ensures match NextMove(old(state), rem, finish)
              case Hold => n == 0 && state == old(state).(pending := rem)
              case Eat(k, q) => n == k && state == q
    {
      hide OpenTag, CloseTag, WriteChar, HoldBack;
      var t := state.tags;
      if t.open <= rem {
        state := OpenTag(state);
        n := |t.open|;
      } else if t.close <= rem {
        state := CloseTag(state);
        n := |t.close|;
      } else if !finish && HoldBack(t, rem) {
        state := state.(pending := rem);
        n := 0;
      } else {
        state := WriteChar(state, rem[0]);
        n := 1;
      }
    }

    /** token_printer_process */
    method Loop(text: string, finish: bool)
      requires state.tags.Shape()
      modifies this`state
      ensures state == Run(old(state).(pending := ""), old(state).pending + text, finish)
    {
      hide NextMove, Think.Shape;
      var buf := state.pending + text;
      state := state.(pending := "");
      ghost var start := state;
      var i := 0;
      while i < |buf|
        invariant i <= |buf| && state.tags == start.tags
        invariant Run(state, buf[i..], finish) == Run(start, buf, finish)
      {
        var n := Pass(buf[i..], finish);
        if n == 0 {
          return;
        }
        assert buf[i..][n..] == buf[i + n..];
        i := i + n;
      }
    }

    /** token_printer_write_text; a printer that does not format thinking copies bytes. */
    method WriteText(text: string)
      requires state.tags.Shape()
      modifies this`state
      ensures state == if formatThinking then Process(old(state), text) else Copy(old(state), text)
    {
      if formatThinking {
        Loop(text, false);
      } else if text != "" {
        state := state.(out := state.out + Bytes(text), lastNewline := text[|text| - 1] == '\n');
      }
    }

    /** generation_done: token_printer_finish and a final line break. */
    method Done()
      requires state.tags.Shape()
      modifies this`state
      ensures state == EndLine(if formatThinking then Finish(old(state)) else old(state))
    {
      if formatThinking {
        assert state.pending + "" == state.pending;
        Loop("", true);
        state := ResetColor(state);
      }
      if !state.lastNewline {
        state := state.(out := state.out + [Byte('\n')], lastNewline := true);
      }
    }
  }
}
