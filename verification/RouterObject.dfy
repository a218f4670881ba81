/**
 The stream router as the agent runs it: a struct updated in place, byte by byte, with its
 two marker windows in buffers that are shifted in place.

 Every method is proved to compute the corresponding function of `StreamRouter` on the
 object's state, so the theorems about those functions are theorems about this object.
 */
module RouterObject {
  import opened Strings
  import opened ThinkTags
  import opened ToolCalls
  import opened StreamRouter
  import opened MarkerDetector

  /** The sliding window of the specification keeps the last bytes. */
  lemma WindowKeeps(tail: string, c: char)
    requires |tail| <= DETECTOR
    ensures StreamRouter.Window(tail, c) == LastN(tail + [c], DETECTOR)
  {
  }

  class StreamRenderer {
    var state: Router
    const thinking: ByteWindow
    const plain: ByteWindow

    /** The two windows of the router are what the buffers hold. */
    ghost predicate Valid()
      reads this, thinking, plain, thinking.tail, plain.tail
    {
      && state.Valid() && thinking.Valid() && plain.Valid()
      && state.thinkTail == thinking.Contents() && state.plainTail == plain.Contents()
      && thinking != plain && thinking.tail != plain.tail
      && thinking.tail.Length == DETECTOR && plain.tail.Length == DETECTOR
    }

    constructor (v: Vocab, tool: Tool, inThink: bool)
      requires tool.Valid() && v.Shape()
      ensures Valid() && state == NewRouter(v, tool, inThink)
      ensures fresh(thinking) && fresh(plain) && fresh(thinking.tail) && fresh(plain.tail)
    {
      state := NewRouter(v, tool, inThink);
      thinking := new ByteWindow(DETECTOR);
      plain := new ByteWindow(DETECTOR);
    }

    /** agent_stream_note_thinking_dsml_byte */
    method NoteThinkingByte(c: char)
      requires Valid()
      modifies this`state, thinking, thinking.tail
      ensures Valid() && state == NoteThinking(old(state), c)
    {
      hide LastN, EndsInMarker;
      if !state.inThink || state.dsmlInThink {
        return;
      }
      WindowKeeps(state.thinkTail, c);
      var hit := thinking.Feed(c, state.vocab.markers);
      state := state.(thinkTail := thinking.tail[..thinking.len], thought := state.thought + [c], dsmlInThink := hit);
    }

    /** agent_stream_note_plain_dsml_byte */
    method NotePlainByte(c: char)
      requires Valid()
      modifies this`state, plain, plain.tail
      ensures Valid() && state == NotePlain(old(state), c)
    {
      hide LastN, EndsInMarker;
      if state.tool.Phase().Error? || state.active || state.inThink || state.dsmlInThink {
        return;
      }
      WindowKeeps(state.plainTail, c);
      var hit := plain.Feed(c, state.vocab.markers);
      state := state.(plainTail := plain.tail[..plain.len]);
      if hit {
        state := state.(tool := state.tool.Malformed());
      }
    }

    method ShowByte(c: char)
      requires Valid()
      modifies this`state, plain, plain.tail
      ensures Valid() && state == Show(old(state), c)
    {
      hide NotePlain;
      state := state.(shown := state.shown + [c]);
      NotePlainByte(c);
    }

    /** The loop that shows held bytes; a malformed marker stops it. */
    method ShowBytes(s: string)
      requires Valid()
      modifies this`state, plain, plain.tail
      ensures Valid() && state == ShowAll(old(state), s)
    {
      hide Show;
      var i := 0;
      while i < |s|
        invariant i <= |s| && Valid()
        invariant ShowAll(state, s[i..]) == ShowAll(old(state), s)
      {
        assert s[i..][0] == s[i] && s[i..][1..] == s[i + 1..];
        ShowByte(s[i]);
        if state.tool.Phase().Error? {
          return;
        }
        i := i + 1;
      }
    }

    /** agent_stream_flush_start_tail */
    method Flush()
      requires Valid()
      modifies this`state, plain, plain.tail
      ensures Valid() && state == FlushStartTail(old(state))
    {
      hide ShowAll, Show, EndsInMarker, Tool.Phase, Tool.Calls, Tool.Valid, Vocab.Shape, LastN;
      if state.startTail == "" {
        return;
      }
      state := state.(postThinkGap := false);
      ShowBytes(state.startTail);
      state := state.(startTail := "");
    }

    /** agent_stream_finish_ignored_dsml */
    method ReportIgnored()
      requires Valid()
      modifies this`state
      ensures Valid() && state == FinishIgnored(old(state))
    {
      state := state.(dsmlInThink := true, reported := true);
      state := state.(tool := state.tool.Reset(), active := false, ignored := false);
    }

    /** agent_stream_feed_dsml_byte */
    method FeedBlockByte(c: char)
      requires Valid()
      modifies this`state
      ensures Valid() && state == BlockByte(old(state), c)
    {
      hide Tool.FeedByte, FinishIgnored, Tool.Valid, Vocab.Shape;
      state := state.(tool := state.tool.FeedByte(c));
      if state.tool.Phase().Done? || state.tool.Phase().Error? {
        if state.ignored {
          ReportIgnored();
        } else {
          state := state.(active := false);
        }
      }
    }

    /** agent_stream_start_dsml, and the invoke opener that a bare invoke implies */
    method OpenBlock(implicitInvoke: bool)
      requires Valid()
      modifies this`state
      ensures Valid() && state == StartBlock(old(state), implicitInvoke)
    {
      hide BlockByte, Tool.Start;
      state := state.(active := true, ignored := state.inThink, dsmlInThink := state.dsmlInThink || state.inThink,
                    startTail := "", postThinkGap := false, tool := state.tool.Start(),
                    opens := state.opens + [state.inThink]);
      if state.tool.Dsml? && implicitInvoke {
        var s, i := state.vocab.invoke, 0;
        ghost var start := state;
        assert s[0..] == s;
        while i < |s|
          invariant i <= |s| && Valid()
          invariant BlockBytes(state, s[i..]) == BlockBytes(start, s)
        {
          assert s[i..][0] == s[i] && s[i..][1..] == s[i + 1..];
          FeedBlockByte(s[i]);
          i := i + 1;
        }
      }
    }

    /** agent_stream_dsml_start_match: the loop over the start forms. */
    static method FindForm(forms: seq<Form>, tail: string) returns (form: Option<Form>)
      ensures form == MatchForm(forms, tail)
    {
      var k := 0;
      while k < |forms|
        invariant k <= |forms|
        invariant MatchForm(forms[k..], tail) == MatchForm(forms, tail)
      {
        assert forms[k..][0] == forms[k] && forms[k..][1..] == forms[k + 1..];
        if tail <= forms[k].text {
          return Some(forms[k]);
        }
        k := k + 1;
      }
      return None;
    }

    /** The held bytes begin no form: show them, up to a '<' that may start over. */
    method GiveUpTail()
      requires Valid() && state.startTail != ""
      modifies this`state, plain, plain.tail
      ensures Valid() && state == Unmatched(old(state), old(state).startTail)
    {
      hide ShowAll, FlushStartTail, Show, EndsInMarker, Tool.Phase, Tool.Calls, Tool.Valid, Vocab.Shape, LastN;
      var tail := state.startTail;
      var last := |tail| - 1;
      if last > 0 && tail[last] == '<' {
        state := state.(postThinkGap := false);
        ShowBytes(tail[..last]);
        state := state.(startTail := if state.tool.Phase().Error? then "" else "<");
      } else {
        assert old(state).(startTail := tail) == old(state);
        Flush();
      }
    }

    /** The start detector on one byte. */
    method DetectByte(c: char)
      requires Valid()
      modifies this`state, plain, plain.tail
      ensures Valid() && state == DetectorByte(old(state), c)
    {
      hide MatchForm, StartBlock, Unmatched, Show, EndsInMarker, Tool.Phase, Tool.Calls, Tool.Valid, Vocab.Shape, LastN;
      ghost var r := state;
      if |state.startTail| < START_TAIL {
        state := state.(startTail := state.startTail + [c]);
      }
      var tail := state.startTail;
      var form := FindForm(state.vocab.forms, tail);
      if form.None? {
        assert tail != "" by { TailGrows(r, c, tail); }
        UnmatchedTail(r, tail);
        GiveUpTail();
      } else if |form.value.text| == |tail| {
        ForgetTail(r, tail, form.value.implicitInvoke);
        OpenBlock(form.value.implicitInvoke);
      }
    }

    /** agent_stream_normal_byte */
    method NormalOne(c: char)
      requires Valid()
      modifies this`state, thinking, thinking.tail, plain, plain.tail
      ensures Valid() && state == NormalByte(old(state), c)
    {
      hide NoteThinking, DetectorByte, Show;
      if state.tool.Phase().Error? {
        return;
      }
      NoteThinkingByte(c);
      if state.postThinkGap && IsSpace(c) {
        return;
      }
      if state.startTail != "" || c == '<' {
        DetectByte(c);
        return;
      }
      state := state.(postThinkGap := false);
      ShowByte(c);
    }

    /** A think tag, opening or closing. */
    method ThinkTag(opening: bool)
      requires Valid()
      modifies this`state, plain, plain.tail
      ensures Valid() && state == if opening then OpenThink(old(state)) else CloseThink(old(state))
    {
      hide FlushStartTail, Tool.Valid, Vocab.Shape;
      Flush();
      state := state.(postThinkGap := !opening, inThink := opening);
    }

    /** One byte that is not part of a think tag. */
    method PlainOne(c: char)
      requires Valid()
      modifies this`state, thinking, thinking.tail, plain, plain.tail
      ensures Valid() && state == PlainByte(old(state), c)
    {
      hide NormalByte, BlockByte, Tool.Valid, Vocab.Shape;
      if state.active {
        FeedBlockByte(c);
      } else {
        NormalOne(c);
      }
    }

    /** One pass over the bytes not yet consumed; 0 when they are held back. */
    method Pass(rem: string, finish: bool) returns (n: nat)
      requires Valid() && rem != ""
      modifies this`state, thinking, thinking.tail, plain, plain.tail
      ensures Valid()
      ensures match NextMove(old(state), rem, finish)
              case Hold => n == 0 && state == old(state).(pending := rem)
              case Eat(k, q) => n == k && state == q
    {
      hide OpenThink, CloseThink, PlainByte, HoldBack, Tool.Valid;
      var t := state.vocab.think;
      if !state.active && t.open <= rem {
        ThinkTag(true);
        n := |t.open|;
      } else if !state.active && t.close <= rem {
        ThinkTag(false);
        n := |t.close|;
      } else if !finish && !state.active && HoldBack(t, rem) {
        state := state.(pending := rem);
        n := 0;
      } else {
        PlainOne(rem[0]);
        n := 1;
      }
    }

    /** The byte loop over pending bytes and new text. */
    method Loop(buf: string, finish: bool)
      requires Valid()
      modifies this`state, thinking, thinking.tail, plain, plain.tail
      ensures Valid() && state == Run(old(state), buf, finish)
    {
      hide NextMove, Router.Valid;
      var i := 0;
      while i < |buf|
        invariant i <= |buf| && Valid()
        invariant Run(state, buf[i..], finish) == Run(old(state), buf, finish)
      {
        var n := Pass(buf[i..], finish);
        if n == 0 {
          return;
        }
        assert buf[i..][n..] == buf[i + n..];
        i := i + n;
      }
    }

    /** The end of a message. */
    method Finish()
      requires Valid()
      modifies this`state, plain, plain.tail
      ensures Valid() && state == Settle(old(state))
    {
      hide FlushStartTail, FinishIgnored, Tool.Finish, Tool.Valid, Vocab.Shape;
      Flush();
      state := state.(postThinkGap := false);
      if state.active {
        state := state.(tool := state.tool.Finish());
        if state.ignored {
          ReportIgnored();
        } else {
          state := state.(active := false);
        }
      }
      if state.dsmlInThink && !state.reported {
        ReportIgnored();
      }
    }

    /** agent_stream_text */
    method StreamText(text: string, finish: bool)
      requires Valid() && (finish ==> text == "")
      modifies this`state, thinking, thinking.tail, plain, plain.tail
      ensures Valid()
      ensures state == if finish then FinishText(old(state)) else Text(old(state), text)
    {
      hide Run, Settle, Tool.Valid, Vocab.Shape;
      var buf := state.pending + text;
      state := state.(pending := "");
      Loop(buf, finish);
      if finish {
        assert buf == old(state).pending;
        Finish();
      }
    }
  }

  lemma TailGrows(r: Router, c: char, tail: string)
    requires tail == if |r.startTail| < START_TAIL then r.startTail + [c] else r.startTail
    ensures tail != ""
  {
  }

  /** Giving up looks at the tail, not at the one held before. */
  lemma UnmatchedTail(r: Router, tail: string)
    requires r.Valid() && tail != ""
    ensures Unmatched(r.(startTail := tail), tail) == Unmatched(r, tail)
  {
    hide ShowAll, FlushStartTail, Tool.Phase, Tool.Valid, Vocab.Shape;
    assert r.(startTail := tail).(startTail := tail) == r.(startTail := tail);
    if |tail| > 1 && tail[|tail| - 1] == '<' {
      RestartTail(r.(postThinkGap := false), tail, tail[..|tail| - 1]);
    }
  }

  lemma RestartTail(r: Router, tail: string, s: string)
    requires r.Valid()
    ensures var q, q' := ShowAll(r, s), ShowAll(r.(startTail := tail), s);
            && q'.tool.Phase() == q.tool.Phase()
            && forall x :: q'.(startTail := x) == q.(startTail := x)
  {
    hide ShowAll, Tool.Phase, Tool.Valid, Vocab.Shape;
    ShowAllTail(r, tail, s);
  }

  /** Showing bytes neither reads nor changes the held ones. */
  lemma {:induction false} ShowAllTail(r: Router, tail: string, s: string)
    requires r.Valid()
    ensures ShowAll(r.(startTail := tail), s) == ShowAll(r, s).(startTail := tail)
    decreases |s|
  {
    hide Tool.Valid, Vocab.Shape, EndsInMarker, Tool.Malformed;
    if s != "" {
      var q := Show(r, s[0]);
      assert Show(r.(startTail := tail), s[0]) == q.(startTail := tail);
      if !q.tool.Phase().Error? {
        ShowAllTail(q, tail, s[1..]);
      }
    }
  }

  /** Opening a block clears the held bytes, whatever they were. */
  lemma ForgetTail(r: Router, tail: string, implicitInvoke: bool)
    requires r.Valid()
    ensures StartBlock(r, implicitInvoke) == StartBlock(r.(startTail := tail), implicitInvoke)
  {
  }
}
