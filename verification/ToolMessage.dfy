/**
 What the agent does with whole messages: prose, thinking, stanzas of tool calls, and
 stanzas that are unfinished, broken or in the wrong place.

 Every theorem is about a message as text, however it was cut into chunks, and says what
 is decided about it and what of it is shown.
 */
module ToolMessage {
  import opened Strings
  import opened ToolCalls
  import opened ThinkTags
  import opened StreamRouter
  import opened RouterProse
  import D = ToolParser
  import DG = DsmlGrammar
  import DR = DsmlRoundTrip
  import G = GlmParser
  import GG = GlmGrammar
  import GR = GlmRoundTrip

  // ------------------------------------------------------------------------------------
  // Deciding
  // ------------------------------------------------------------------------------------

  /** A message of which only the text speaks: the loop saw nothing before its end. */
  function Decided(r: Router): Verdict {
    Decide(r, false, false, false, false)
  }

  /** The router of a new message, given all of it. */
  function Whole(v: Vocab, tool: Tool, inThink: bool, chunks: seq<string>): Router
    requires tool.Valid() && v.Shape()
  {
    FinishText(Texts(NewRouter(v, tool, inThink), chunks))
  }

  /** An interrupt stops, a failed preflight is reported unless thinking called a tool. */
  lemma DecidedFirst(r: Router, gotTool: bool, malformed: bool, preflight: bool)
    ensures Decide(r, gotTool, malformed, preflight, true) == Stopped
    ensures !r.dsmlInThink ==> Decide(r, gotTool, malformed, true, false) == PreflightError
    ensures r.dsmlInThink ==> Decide(r, gotTool, malformed, preflight, false) == MalformedTool
  {
  }

  lemma WholeIs(v: Vocab, tool: Tool, inThink: bool, chunks: seq<string>, text: string)
    requires tool.Valid() && v.Shape() && Concat(chunks) == text
    ensures NewRouter(v, tool, inThink).Valid()
    ensures Whole(v, tool, inThink, chunks) == Settle(Run(NewRouter(v, tool, inThink), text, true))
  {
    hide Run, Settle;
    NewPlain(v, tool, inThink);
    StreamIsOneShot(NewRouter(v, tool, inThink), chunks);
  }

  lemma NewPlain(v: Vocab, tool: Tool, inThink: bool)
    requires tool.Valid() && v.Shape()
    ensures var r := NewRouter(v, tool, inThink);
            r.Valid() && r.pending == "" && r.inThink == inThink && r.vocab == v
  {
  }

  lemma NewCalm(v: Vocab, tool: Tool, inThink: bool)
    requires tool.Valid() && v.Shape()
    ensures Calm(NewRouter(v, tool, inThink), v, tool.Reset(), "", "")
  {
    hide Tool.Valid, Tool.Reset, Vocab.Shape;
    LastNNothing(DETECTOR);
    NothingHeld(v);
  }

  lemma MarkerLong(v: Vocab, k: nat)
    requires v.Shape() && k < |v.markers|
    ensures |v.markers[k]| > 0
  {
  }

  // ------------------------------------------------------------------------------------
  // Messages without a stanza
  // ------------------------------------------------------------------------------------

  /** A message that asked for nothing: all of it shown. */
  ghost predicate Quiet(r: Router, shown: string) {
    r.Valid() && r.tool.Phase().Search? && !r.dsmlInThink && r.shown == shown
  }

  lemma QuietAnswers(r: Router, shown: string)
    requires Quiet(r, shown)
    ensures Decided(r) == Answer
  {
  }

  /** The end of a message shows what was held, and looks for markers in it. */
  lemma SettleCalm(r: Router, v: Vocab, tool: Tool, before: string, s: string)
    requires Calm(r, v, tool, before, s)
    ensures r.Valid()
    ensures r.inThink || NoMarker(s, v.markers) ==> Quiet(Settle(r), before + s)
    ensures !r.inThink && !NoMarker(s, v.markers) ==> Broken(Settle(r))
  {
    hide ShowAll, LastN, NoMarker, IsHeld, Tool.Valid, Vocab.Shape;
    HeldEnds(v, s, r.startTail);
    var u := Passed(r, s);
    var r1 := r.(postThinkGap := false);
    assert r1 == r;
    assert before + u + r.startTail == before + s;
    if r.startTail != "" {
      ShowText(r1, v, tool, u, r.startTail);
      if !r.inThink && !NoMarker(s, v.markers) {
        MarredError(ShowAll(r1, r.startTail), r1);
      }
    } else {
      assert u + "" == u && before + u == before + s;
    }
  }

  lemma SettleFound(r: Router)
    requires Found(r)
    ensures Found(Settle(r))
  {
    hide FlushStartTail, Tool.Valid, Vocab.Shape;
    FlushSame(r);
    if Broken(r) {
      FlushNothing(r);
    }
  }

  lemma FlushNothing(r: Router)
    requires r.Valid() && r.startTail == ""
    ensures FlushStartTail(r) == r
  {
  }

  lemma FoundMalformed(r: Router)
    requires Found(r)
    ensures Decided(r) == MalformedTool
  {
  }

  /**
   A message of text without start forms and think tags, read outside or inside thinking:
   it is an answer, shown from beginning to end, unless it spells a marker; then it is
   reported as a malformed call.
   */
  lemma TextVerdict(v: Vocab, tool: Tool, inThink: bool, s: string, chunks: seq<string>)
    requires Speaks(v) && tool.Valid() && FormFree(v, s) && TagFree(v, s) && Concat(chunks) == s
    ensures var r := Whole(v, tool, inThink, chunks);
            && Decided(r) == (if NoMarker(s, v.markers) then Answer else MalformedTool)
            && (NoMarker(s, v.markers) ==> r.shown == s && !r.dsmlInThink)
  {
    hide Calm, NoMarker, FormFree, TagFree, Run, Settle, Whole, NewRouter, Decide, Broken, Quiet;
    var r := NewRouter(v, tool, inThink);
    WholeIs(v, tool, inThink, chunks, s);
    NewCalm(v, tool, inThink);
    NewPlain(v, tool, inThink);
    assert "" + s == s && s + "" == s;
    SpeaksTags(v);
    NoTags(v, "", s, "", true);
    var q, n := CalmRun(r, v, tool.Reset(), "", "", s, "", true);
    if Calm(q, v, tool.Reset(), "", s) && q.inThink == r.inThink && n == |s| {
      assert (s + "")[n..] == "" && Run(q, "", true) == q by { RunNothing(q, true); }
      SettleCalm(q, v, tool.Reset(), "", s);
      QuietOrBroken(Settle(q), s, inThink, NoMarker(s, v.markers));
      if inThink && !NoMarker(s, v.markers) {
        CalmMarker(q, v, tool.Reset(), "", s);
      }
    } else {
      FoundRun(q, (s + "")[n..]);
      SettleFound(Run(q, (s + "")[n..], true));
      FoundMalformed(Settle(Run(q, (s + "")[n..], true)));
    }
  }

  lemma RunNothing(r: Router, finish: bool)
    requires r.Valid()
    ensures Run(r, "", finish) == r
  {
  }

  /** Inside thinking a calm state has read no marker. */
  lemma CalmMarker(r: Router, v: Vocab, tool: Tool, before: string, s: string)
    requires Calm(r, v, tool, before, s) && r.inThink
    ensures NoMarker(s, v.markers)
  {
  }

  lemma QuietOrBroken(r: Router, shown: string, inThink: bool, clean: bool)
    requires inThink || clean ==> Quiet(r, shown)
    requires !inThink && !clean ==> Broken(r)
    ensures inThink || clean ==> Decided(r) == Answer && r.shown == shown && !r.dsmlInThink
    ensures !inThink && !clean ==> Decided(r) == MalformedTool
  {
  }

  // ------------------------------------------------------------------------------------
  // What comes before a stanza
  // ------------------------------------------------------------------------------------

  datatype Lead =
    | Said(prose: string)
    | Thought(thought: string, gap: string, said: string)
  {
    function Text(v: Vocab): string {
      match this
      case Said(prose) => prose
      case Thought(thought, gap, said) => thought + (v.think.close + (gap + said))
    }

    /** The part that is shown: neither the tag nor the spaces behind it. */
    function Shown(): string {
      match this
      case Said(prose) => prose
      case Thought(thought, gap, said) => thought + said
    }

    ghost predicate Proper(v: Vocab) {
      match this
      case Said(prose) => Prose(v, prose)
      case Thought(thought, gap, said) =>
        && Prose(v, thought) && Prose(v, said) && Spaces(gap)
        && (said != "" ==> !IsSpace(said[0]) && said[0] != '<')
    }
  }

  /** Just behind a closing think tag, and the spaces that are not shown. */
  ghost predicate InGap(r: Router, v: Vocab, tool: Tool, shown: string) {
    && Idle(r, v, tool) && !r.inThink && r.startTail == "" && r.plainTail == "" && r.postThinkGap
    && r.shown == shown
  }

  lemma CloseCalm(r: Router, v: Vocab, tool: Tool, before: string, s: string)
    requires Calm(r, v, tool, before, s) && r.inThink
    ensures r.Valid() && InGap(CloseThink(r), v, tool, before + s)
  {
    hide ShowAll, LastN, NoMarker, IsHeld, Tool.Valid, Vocab.Shape;
    HeldEnds(v, s, r.startTail);
    assert before + Passed(r, s) + r.startTail == before + s;
    if r.startTail != "" {
      ShowText(r.(postThinkGap := false), v, tool, "", r.startTail);
    } else {
      assert Passed(r, s) == s;
    }
  }

  lemma CloseRun(r: Router, v: Vocab, tool: Tool, before: string, s: string, rest: string, finish: bool)
      returns (q: Router)
    requires Calm(r, v, tool, before, s) && r.inThink
    ensures InGap(q, v, tool, before + s)
    ensures r.Valid() && q.Valid() && Run(r, v.think.close + rest, finish) == Run(q, rest, finish)
  {
    hide LastN, IsHeld, NoMarker, Tool.Valid, PlainByte, OpenThink, CloseThink;
    CloseCalm(r, v, tool, before, s);
    var buf := v.think.close + rest;
    assert buf[..|v.think.close|] == v.think.close && buf[|v.think.close|..] == rest;
    if v.think.open <= buf {
      OneBeginsOther(v.think.open, v.think.close, buf);
    }
    q := CloseThink(r);
  }

  /** A byte that is not a '<' begins no think tag. */
  lemma NoTagHere(v: Vocab, buf: string, finish: bool)
    requires Speaks(v) && buf != "" && buf[0] != '<'
    ensures NoTag(v, buf, finish)
  {
    hide FormShape, Vocab.Shape;
  }

  lemma {:induction false} GapRun(r: Router, v: Vocab, tool: Tool, shown: string, gap: string, rest: string,
                                  finish: bool)
    requires Speaks(v) && InGap(r, v, tool, shown) && Spaces(gap)
    ensures r.Valid() && Run(r, gap + rest, finish) == Run(r, rest, finish)
    decreases |gap|
  {
    hide Tool.Valid, Vocab.Shape, Speaks, DetectorByte, Show, Run, NoTag;
    if gap == "" {
      assert gap + rest == rest;
    } else {
      NoTagHere(v, gap + rest, finish);
      PlainMove(r, gap + rest, finish);
      assert PlainByte(r, gap[0]) == r;
      assert (gap + rest)[1..] == gap[1..] + rest;
      GapRun(r, v, tool, shown, gap[1..], rest, finish);
    }
  }

  /** The gap ends at the first byte that is no space; if it is no '<' either, it is as if there was none. */
  lemma GapEnds(r: Router, v: Vocab, tool: Tool, shown: string, text: string, finish: bool)
    requires Speaks(v) && InGap(r, v, tool, shown) && text != "" && !IsSpace(text[0]) && text[0] != '<'
    ensures var q := r.(postThinkGap := false);
            && r.Valid() && q.Valid() && Calm(q, v, tool, shown, "") && !q.inThink
            && Run(r, text, finish) == Run(q, text, finish)
  {
    hide Tool.Valid, Vocab.Shape, Speaks, DetectorByte, Show, Run, NoTag, LastN;
    var q := r.(postThinkGap := false);
    NoTagHere(v, text, finish);
    PlainMove(r, text, finish);
    PlainMove(q, text, finish);
    LastNNothing(DETECTOR);
    NothingHeld(v);
    assert shown + "" == shown;
  }

  lemma NothingHeld(v: Vocab)
    requires v.Shape()
    ensures IsHeld(v, "", "") && NoMarker("", v.markers)
  {
    forall k, i | 0 <= k < |v.markers| ensures !OccursAt("", i, v.markers[k]) {
      MarkerLong(v, k);
    }
  }

  /** Prose behind the gap, in front of a '<' or the end. */
  lemma SaidRun(r: Router, v: Vocab, tool: Tool, shown: string, gap: string, said: string, rest: string,
                finish: bool) returns (q: Router)
    requires Speaks(v) && InGap(r, v, tool, shown) && Lead.Thought("", gap, said).Proper(v)
    requires (rest == "" && finish) || (rest != "" && rest[0] == '<')
    ensures if said == "" then q == r else Calm(q, v, tool, shown, said) && !q.inThink
    ensures r.Valid() && q.Valid() && Run(r, gap + (said + rest), finish) == Run(q, rest, finish)
  {
    hide Tool.Valid, Vocab.Shape, Run, Calm, NoMarker, FormFree, TagFree, Broken, Speaks;
    GapRun(r, v, tool, shown, gap, said + rest, finish);
    if said == "" {
      q := r;
      assert said + rest == rest;
    } else {
      GapEnds(r, v, tool, shown, said + rest, finish);
      assert "" + said == said;
      SpeaksTags(v);
      NoTags(v, "", said, rest, finish);
      var n;
      q, n := CalmRun(r.(postThinkGap := false), v, tool, shown, "", said, rest, finish);
      assert n == |said| ==> (said + rest)[n..] == rest;
    }
  }

  lemma SpeaksTags(v: Vocab)
    requires Speaks(v)
    ensures v.Shape() && Angled(v.think.open) && Angled(v.think.close)
  {
  }

  /** From a new router to the end of the lead: calm, or still in the gap behind thinking. */
  lemma LeadRun(v: Vocab, tool: Tool, lead: Lead, rest: string, finish: bool) returns (q: Router)
    requires Speaks(v) && tool.Valid() && lead.Proper(v)
    requires (rest == "" && finish) || (rest != "" && rest[0] == '<')
    ensures q.Valid() && Waiting(q, v, tool.Reset(), lead.Shown()) && NewRouter(v, tool, lead.Thought?).Valid()
    ensures Run(NewRouter(v, tool, lead.Thought?), lead.Text(v) + rest, finish) == Run(q, rest, finish)
  {
    hide Tool.Valid, Tool.Reset, Vocab.Shape, Calm, Prose, NewRouter, Run, Speaks, Broken;
    var t := tool.Reset();
    SpeaksTags(v);
    NewPlain(v, tool, lead.Thought?);
    NewCalm(v, tool, lead.Thought?);
    match lead
    case Said(prose) =>
      q := SaidLead(v, tool, prose, rest, finish);
      assert "" + prose == prose;
      CalmWaits(q, v, t, "", prose);
    case Thought(thought, gap, said) =>
      var tail := gap + (said + rest);
      assert lead.Text(v) + rest == thought + (v.think.close + tail);
      var r1 := ThoughtLead(v, tool, thought, tail, finish);
      var r2 := CloseRun(r1, v, t, "", thought, tail, finish);
      assert "" + thought == thought;
      assert Prose(v, "") by { assert thought[..0] == ""; ProsePrefix(v, thought, 0); }
      q := SaidRun(r2, v, t, thought, gap, said, rest, finish);
      if said == "" {
        assert thought + said == thought;
      } else {
        CalmWaits(q, v, t, thought, said);
      }
  }

  lemma SaidLead(v: Vocab, tool: Tool, prose: string, rest: string, finish: bool) returns (q: Router)
    requires Speaks(v) && tool.Valid() && Prose(v, prose)
    requires (rest == "" && finish) || (rest != "" && rest[0] == '<')
    ensures Calm(q, v, tool.Reset(), "", prose) && !q.inThink && NewRouter(v, tool, false).Valid() && q.Valid()
    ensures Run(NewRouter(v, tool, false), prose + rest, finish) == Run(q, rest, finish)
  {
    hide Tool.Valid, Tool.Reset, Calm, NoMarker, FormFree, TagFree, NewRouter, Run, Speaks, Broken;
    SpeaksTags(v);
    NewPlain(v, tool, false);
    NewCalm(v, tool, false);
    assert "" + prose == prose;
    NoTags(v, "", prose, rest, finish);
    var n;
    q, n := CalmRun(NewRouter(v, tool, false), v, tool.Reset(), "", "", prose, rest, finish);
    assert n == |prose| ==> (prose + rest)[n..] == rest;
  }

  lemma ThoughtLead(v: Vocab, tool: Tool, thought: string, tail: string, finish: bool) returns (q: Router)
    requires Speaks(v) && tool.Valid() && Prose(v, thought)
    ensures Calm(q, v, tool.Reset(), "", thought) && q.inThink && NewRouter(v, tool, true).Valid() && q.Valid()
    ensures Run(NewRouter(v, tool, true), thought + (v.think.close + tail), finish)
         == Run(q, v.think.close + tail, finish)
  {
    hide Tool.Valid, Tool.Reset, Calm, NoMarker, FormFree, TagFree, NewRouter, Run, Speaks, Broken;
    SpeaksTags(v);
    NewPlain(v, tool, true);
    NewCalm(v, tool, true);
    var rest := v.think.close + tail;
    assert "" + thought == thought;
    NoTags(v, "", thought, rest, finish);
    var n;
    q, n := CalmRun(NewRouter(v, tool, true), v, tool.Reset(), "", "", thought, rest, finish);
    assert n == |thought| ==> (thought + rest)[n..] == rest;
  }

  /** About to read a start form outside thinking. */
  ghost predicate Waiting(r: Router, v: Vocab, tool: Tool, shown: string) {
    || InGap(r, v, tool, shown)
    || (!r.inThink && exists before, s ::
          Calm(r, v, tool, before, s) && before + s == shown && NoMarker(s, v.markers) && FormFree(v, s))
  }

  lemma CalmWaits(r: Router, v: Vocab, tool: Tool, before: string, s: string)
    requires Calm(r, v, tool, before, s) && !r.inThink && Prose(v, s)
    ensures Waiting(r, v, tool, before + s)
  {
    hide Calm, NoMarker, FormFree, TagFree, InGap;
  }

  /** A lead with nothing behind it is an answer, and shown. */
  lemma LeadAnswers(v: Vocab, tool: Tool, lead: Lead, chunks: seq<string>)
    requires Speaks(v) && tool.Valid() && lead.Proper(v) && Concat(chunks) == lead.Text(v)
    ensures var r := Whole(v, tool, lead.Thought?, chunks);
            Decided(r) == Answer && r.shown == lead.Shown()
  {
    hide Calm, NoMarker, FormFree, Run, Settle, Whole, NewRouter, Decide, Quiet, Lead.Proper, Lead.Text, Speaks,
         InGap, Lead.Shown;
    SpeaksTags(v);
    WholeIs(v, tool, lead.Thought?, chunks, lead.Text(v));
    var q := LeadRun(v, tool, lead, "", true);
    assert lead.Text(v) + "" == lead.Text(v);
    RunNothing(q, true);
    if InGap(q, v, tool.Reset(), lead.Shown()) {
      SettleGap(q, v, tool.Reset(), lead.Shown());
    } else {
      var before, s :| Calm(q, v, tool.Reset(), before, s) && before + s == lead.Shown() && NoMarker(s, v.markers);
      SettleCalm(q, v, tool.Reset(), before, s);
    }
    QuietAnswers(Settle(q), lead.Shown());
    QuietShown(Settle(q), lead.Shown());
  }

  lemma QuietShown(r: Router, shown: string)
    requires Quiet(r, shown)
    ensures r.shown == shown
  {
  }

  lemma SettleGap(r: Router, v: Vocab, tool: Tool, shown: string)
    requires InGap(r, v, tool, shown)
    ensures r.Valid() && Quiet(Settle(r), shown)
  {
    hide Tool.Valid, Vocab.Shape;
  }

  // ------------------------------------------------------------------------------------
  // Calls inside thinking
  // ------------------------------------------------------------------------------------

  /** A form that appears with the last byte ends there. */
  lemma FormNow(v: Vocab, s: string, c: char) returns (form: Form)
    requires FormFree(v, s) && !FormFree(v, s + [c])
    ensures form in v.forms && OccursAt(s + [c], |s + [c]| - |form.text|, form.text)
  {
    var k :| 0 <= k < |v.forms| && !Free(s + [c], v.forms[k].text);
    form := v.forms[k];
    var i :| OccursAt(s + [c], i, form.text);
    OccursAtExtend(s, [c], i, form.text);
    assert !OccursAt(s, i, form.text);
  }

  /** Reading on inside thinking until something is detected. */
  lemma {:induction false} ThinkRun(r: Router, v: Vocab, tool: Tool, before: string, s: string, x: string, rest: string)
    requires Speaks(v) && Calm(r, v, tool, before, s) && r.inThink && FormFree(v, s)
    requires !(NoMarker(s + x, v.markers) && FormFree(v, s + x))
    requires forall i :: 0 <= i < |x| ==> NoTag(v, (x + rest)[i..], true)
    ensures r.Valid() && Run(r, x + rest, true).dsmlInThink
    decreases |x|
  {
    hide Calm, NoMarker, NoTag, FormFree, Speaks, Run, PlainByte, Broken, Tool.Valid, Vocab.Shape;
    CalmValid(r, v, tool, before, s);
    CalmMarker(r, v, tool, before, s);
    assert x == "" ==> s + x == s;
    var s1 := s + [x[0]];
    assert s1 + x[1..] == s + x && (x + rest)[1..] == x[1..] + rest;
    assert NoTag(v, (x + rest)[0..], true) && (x + rest)[0..] == x + rest;
    PlainMove(r, x + rest, true);
    var r1 := PlainByte(r, x[0]);
    if !FormFree(v, s1) {
      var form := FormNow(v, s, x[0]);
      FormInThinking(r, v, tool, before, s, x[0], form);
      MarkedRun(r1, (x + rest)[1..], true);
    } else {
      CalmByte(r, v, tool, before, s, x[0]);
      if r1.dsmlInThink {
        MarkedRun(r1, (x + rest)[1..], true);
      } else {
        forall i | 0 <= i < |x[1..]| ensures NoTag(v, (x[1..] + rest)[i..], true) {
          assert (x[1..] + rest)[i..] == (x + rest)[i + 1..];
        }
        ThinkRun(r1, v, tool, before, s1, x[1..], rest);
      }
    }
  }

  lemma SettleMarked(r: Router)
    requires r.Valid() && r.dsmlInThink
    ensures Settle(r).dsmlInThink
  {
    hide FlushStartTail, Tool.Valid, Vocab.Shape;
    FlushMarked(r);
  }

  /**
   A message whose thinking spells a start form or a marker, before any think tag: it is
   reported as a malformed call, whatever follows and whatever else went on, unless the
   user stopped it.
   */
  lemma ThinkingCalls(v: Vocab, tool: Tool, s: string, rest: string, chunks: seq<string>,
                      gotTool: bool, malformed: bool, preflight: bool)
    requires Speaks(v) && tool.Valid() && !(NoMarker(s, v.markers) && FormFree(v, s))
    requires forall i :: 0 <= i < |s| ==> NoTag(v, (s + rest)[i..], true)
    requires Concat(chunks) == s + rest
    ensures var r := Whole(v, tool, true, chunks);
            r.dsmlInThink && Decide(r, gotTool, malformed, preflight, false) == MalformedTool
  {
    hide Calm, NoMarker, FormFree, NoTag, Run, Settle, Whole, NewRouter, Decide, Speaks;
    SpeaksTags(v);
    WholeIs(v, tool, true, chunks, s + rest);
    NewCalm(v, tool, true);
    NewPlain(v, tool, true);
    NothingSpelled(v);
    assert "" + s == s;
    ThinkRun(NewRouter(v, tool, true), v, tool.Reset(), "", "", s, rest);
    SettleMarked(Run(NewRouter(v, tool, true), s + rest, true));
    DecidedFirst(Whole(v, tool, true, chunks), gotTool, malformed, preflight);
  }

  lemma NothingSpelled(v: Vocab)
    requires Speaks(v)
    ensures FormFree(v, "")
  {
    hide DR.Differ, Vocab.Shape;
    forall k | 0 <= k < |v.forms| ensures Free("", v.forms[k].text) {
      assert FormShape(v, v.forms[k].text);
    }
  }

  // ------------------------------------------------------------------------------------
  // The start form
  // ------------------------------------------------------------------------------------

  /** Some of the form is held. */
  ghost predicate Holding(r: Router, v: Vocab, tool: Tool, shown: string, held: string) {
    Idle(r, v, tool) && !r.inThink && r.startTail == held && r.shown == shown
  }

  /** A '<' behind held prose flushes it and starts over. */
  lemma FlushHeld(r: Router, v: Vocab, tool: Tool, before: string, s: string)
    requires Speaks(v) && Calm(r, v, tool, before, s) && NoMarker(s, v.markers) && FormFree(v, s)
    requires r.startTail != "" && !r.inThink
    ensures r.Valid() && Holding(DetectorByte(r, '<'), v, tool, before + s, "<")
  {
    hide LastN, MatchForm, NoMarker, ShowAll, StartBlock, FormFree, Speaks, IsHeld, Begins, Tool.Valid, Vocab.Shape;
    var held, u := r.startTail, Passed(r, s);
    HeldEnds(v, s, held);
    HeldShort(v, s, held, s);
    HeldNext(v, s, held, '<');
    MatchIs(v, held + "<");
    assert (held + "<")[..|held|] == held;
    ShowText(r.(postThinkGap := false), v, tool, u, held);
    assert before + u + held == before + s;
  }

  /** The first byte of a form. */
  lemma AngleByte(r: Router, v: Vocab, tool: Tool, shown: string)
    requires Speaks(v) && Waiting(r, v, tool, shown)
    ensures r.Valid() && Holding(PlainByte(r, '<'), v, tool, shown, "<")
  {
    hide LastN, NoMarker, FormFree, Speaks, IsHeld, StartBlock, Unmatched, Tool.Valid, Vocab.Shape, MatchForm;
    OneAngle(v);
    if !InGap(r, v, tool, shown) {
      var before, s :| Calm(r, v, tool, before, s) && before + s == shown && NoMarker(s, v.markers) && FormFree(v, s);
      HeldEnds(v, s, r.startTail);
      if r.startTail != "" {
        hide DetectorByte;
        FlushHeld(r, v, tool, before, s);
      } else {
        assert s[..|s| - 0] == s;
        assert "" + ['<'] == "<";
      }
    } else {
      assert "" + ['<'] == "<";
    }
  }

  lemma OneAngle(v: Vocab)
    requires Speaks(v)
    ensures MatchForm(v.forms, "<").Some? && |MatchForm(v.forms, "<").value.text| > 1
  {
    hide DR.Differ, Vocab.Shape;
    AngleBegins(v);
    MatchIs(v, "<");
    MatchFirst(v.forms, "<");
    var m := MatchForm(v.forms, "<").value;
    var k :| 0 <= k < |v.forms| && v.forms[k] == m;
    assert FormShape(v, v.forms[k].text);
  }

  /** The bytes between the first and the last of a form. */
  lemma MiddleByte(r: Router, v: Vocab, tool: Tool, shown: string, form: Form, k: nat)
    requires Speaks(v) && form in v.forms && 0 < k && k + 1 < |form.text|
    requires Holding(r, v, tool, shown, form.text[..k]) && !IsSpace(form.text[k]) && |form.text| <= START_TAIL
    ensures r.Valid() && Holding(PlainByte(r, form.text[k]), v, tool, shown, form.text[..k + 1])
  {
    hide MatchForm, Unmatched, StartBlock, Tool.Valid, Vocab.Shape, Speaks;
    MatchPart(v, form, k + 1);
    assert form.text[..k] + [form.text[k]] == form.text[..k + 1];
  }

  /** The last byte of a form. */
  lemma LastOfForm(r: Router, v: Vocab, tool: Tool, shown: string, form: Form)
    requires Speaks(v) && form in v.forms && 1 < |form.text| <= START_TAIL
    requires var k := |form.text| - 1; Holding(r, v, tool, shown, form.text[..k]) && !IsSpace(form.text[k])
    requires Opened(v, tool, form).Live()
    ensures r.Valid()
    ensures InStanza(PlainByte(r, form.text[|form.text| - 1]), v, Opened(v, tool, form), shown)
  {
    hide MatchForm, Unmatched, StartBlock, Tool.Valid, Vocab.Shape, Speaks, Opened;
    var k := |form.text| - 1;
    MatchWhole(v, form);
    assert form.text[..k] + [form.text[k]] == form.text;
    StartOpens(r, v, tool, form);
  }

  lemma FormIs(v: Vocab, form: Form)
    requires Speaks(v) && form in v.forms
    ensures FormShape(v, form.text)
  {
    hide FormShape, Vocab.Shape;
    var k :| 0 <= k < |v.forms| && v.forms[k] == form;
    assert FormShape(v, v.forms[k].text);
  }

  lemma {:induction false} FormRun(r: Router, v: Vocab, tool: Tool, shown: string, form: Form, k: nat, rest: string,
                                   finish: bool) returns (q: Router)
    requires Speaks(v) && form in v.forms && 0 < k < |form.text| && tool.Valid() && Opened(v, tool, form).Live()
    requires Holding(r, v, tool, shown, form.text[..k])
    ensures InStanza(q, v, Opened(v, tool, form), shown)
    ensures r.Valid() && q.Valid() && Run(r, form.text[k..] + rest, finish) == Run(q, rest, finish)
    decreases |form.text| - k
  {
    hide Tool.Valid, Vocab.Shape, PlainByte, Run, NoTag, Speaks, Opened, DR.Differ;
    FormIs(v, form);
    var f := form.text;
    var buf := f[k..] + rest;
    assert buf[0] == f[k] && buf[1..] == f[k + 1..] + rest;
    NoTagHere(v, buf, finish);
    PlainMove(r, buf, finish);
    var r1 := PlainByte(r, f[k]);
    if k + 1 < |f| {
      MiddleByte(r, v, tool, shown, form, k);
      q := FormRun(r1, v, tool, shown, form, k + 1, rest, finish);
    } else {
      LastOfForm(r, v, tool, shown, form);
      q := r1;
      assert f[k + 1..] == "" && "" + rest == rest;
    }
  }

  /** No think tag begins where a start form does. */
  lemma NotThinking(tag: string, f: string, rest: string)
    requires DR.Differ(f, tag)
    ensures !(tag <= f + rest) && !(f + rest < tag)
  {
    var k :| 0 <= k < |f| && k < |tag| && f[k] != tag[k];
    assert (f + rest)[k] == f[k];
  }

  /** A start form behind a lead opens a block with an untouched parser. */
  lemma StartRun(v: Vocab, tool: Tool, lead: Lead, form: Form, rest: string, finish: bool) returns (q: Router)
    requires Speaks(v) && tool.Valid() && lead.Proper(v) && form in v.forms
    requires Opened(v, tool.Reset(), form).Live()
    ensures InStanza(q, v, Opened(v, tool.Reset(), form), lead.Shown()) && q.Valid()
    ensures NewRouter(v, tool, lead.Thought?).Valid()
    ensures Run(NewRouter(v, tool, lead.Thought?), lead.Text(v) + (form.text + rest), finish) == Run(q, rest, finish)
  {
    hide Tool.Valid, Tool.Reset, Vocab.Shape, PlainByte, Run, NewRouter, Speaks, Opened, DR.Differ, Waiting, Lead.Text,
         Lead.Shown, Lead.Proper;
    FormIs(v, form);
    var f := form.text;
    var buf := f + rest;
    var t := tool.Reset();
    var r := LeadRun(v, tool, lead, buf, finish);
    NotThinking(v.think.open, f, rest);
    NotThinking(v.think.close, f, rest);
    assert f[..1] == "<" && buf[0] == '<' && buf[1..] == f[1..] + rest;
    WaitingVocab(r, v, t, lead.Shown());
    PlainMove(r, buf, finish);
    AngleByte(r, v, t, lead.Shown());
    q := FormRun(PlainByte(r, '<'), v, t, lead.Shown(), form, 1, rest, finish);
  }

  lemma WaitingVocab(r: Router, v: Vocab, tool: Tool, shown: string)
    requires Waiting(r, v, tool, shown)
    ensures r.Valid() && r.vocab == v
  {
    hide NoMarker, FormFree, IsHeld;
  }

  // ------------------------------------------------------------------------------------
  // Inside the stanza
  // ------------------------------------------------------------------------------------

  lemma ActiveByte(r: Router, buf: string, finish: bool)
    requires r.Valid() && r.active && buf != ""
    ensures BlockByte(r, buf[0]).Valid()
    ensures Run(r, buf, finish) == Run(BlockByte(r, buf[0]), buf[1..], finish)
  {
    hide BlockByte, NormalByte, OpenThink, CloseThink, Router.Valid;
  }

  /** While the parser lives, every byte goes to it. */
  lemma {:induction false} BlockRun(r: Router, v: Vocab, tool: Tool, shown: string, body: string, rest: string,
                                    finish: bool) returns (q: Router)
    requires InStanza(r, v, tool, shown) && Fed(tool, body).Live()
    ensures InStanza(q, v, Fed(tool, body), shown)
    ensures r.Valid() && q.Valid() && Run(r, body + rest, finish) == Run(q, rest, finish)
    decreases |body|
  {
    hide Tool.Valid, Tool.FeedByte, Vocab.Shape, Run;
    if body == "" {
      q := r;
      assert body + rest == rest;
    } else {
      var t1 := tool.FeedByte(body[0]);
      if !t1.Live() {
        FedEnded(t1, body[1..]);
      }
      ActiveByte(r, body + rest, finish);
      assert (body + rest)[1..] == body[1..] + rest;
      q := BlockRun(r.(tool := t1), v, t1, shown, body[1..], rest, finish);
    }
  }

  /** The parser is done with these calls, and the block is closed. */
  ghost predicate Finished(r: Router, v: Vocab, calls: seq<Call>, shown: string) {
    && r.vocab == v && v.Shape() && r.tool.Valid() && r.tool.Phase().Done? && r.tool.Calls() == calls
    && !r.active && !r.ignored && !r.inThink && !r.dsmlInThink
    && r.startTail == "" && r.pending == "" && !r.postThinkGap && shown <= r.shown
  }

  /** The byte that ends the parser, one way or the other. */
  lemma EndByte(r: Router, v: Vocab, tool: Tool, shown: string, c: char)
    requires InStanza(r, v, tool, shown)
    ensures r.Valid()
    ensures var t := tool.FeedByte(c);
            && (t.Phase().Done? ==> Finished(BlockByte(r, c), v, t.Calls(), shown))
            && (t.Phase().Error? ==> Broken(BlockByte(r, c)))
  {
    hide Tool.FeedByte, Vocab.Shape;
  }

  /** A space or a line break behind the stanza changes nothing. */
  lemma SpaceByte(r: Router, v: Vocab, calls: seq<Call>, shown: string, c: char)
    requires Speaks(v) && Finished(r, v, calls, shown) && IsSpace(c)
    ensures r.Valid() && Finished(PlainByte(r, c), v, calls, shown)
  {
    hide DetectorByte, DR.Differ, FormShape, Tool.Valid, Vocab.Shape;
    SpaceEnds(v, Window(r.plainTail, c), c);
  }

  lemma SpaceEnds(v: Vocab, tail: string, c: char)
    requires Speaks(v) && IsSpace(c) && tail != "" && tail[|tail| - 1] == c
    ensures !EndsInMarker(tail, v.markers)
  {
    hide DR.Differ, FormShape;
    forall k | 0 <= k < |v.markers| ensures !OccursAt(tail, |tail| - |v.markers[k]|, v.markers[k]) {
      var m := v.markers[k];
      MarkerLong(v, k);
      if |m| <= |tail| {
        Mismatch(tail, |tail| - |m|, m, |m| - 1);
      }
    }
  }

  lemma {:induction false} SpacesRun(r: Router, v: Vocab, calls: seq<Call>, shown: string, after: string, finish: bool)
    requires Speaks(v) && Finished(r, v, calls, shown) && Spaces(after)
    ensures r.Valid() && Finished(Run(r, after, finish), v, calls, shown)
    decreases |after|
  {
    hide Speaks, PlainByte, Run, NoTag, Vocab.Shape, Tool.Valid;
    if after == "" {
      RunNothing(r, finish);
    } else {
      SpaceByte(r, v, calls, shown, after[0]);
      NoTagHere(v, after, finish);
      PlainMove(r, after, finish);
      SpacesRun(PlainByte(r, after[0]), v, calls, shown, after[1..], finish);
    }
  }

  /** Wherever the parser ends in `text`, only spaces are left. */
  ghost predicate OnlySpacesLeft(tool: Tool, text: string)
    requires tool.Valid()
  {
    forall n :: 0 <= n <= |text| && !Fed(tool, text[..n]).Live() ==> Spaces(text[n..])
  }

  /** A stanza that ends the parser with success. */
  lemma {:induction false} BlockDone(r: Router, v: Vocab, tool: Tool, shown: string, text: string, finish: bool)
    requires Speaks(v) && InStanza(r, v, tool, shown) && tool.Live()
    requires Fed(tool, text).Phase().Done? && OnlySpacesLeft(tool, text)
    ensures r.Valid() && Finished(Run(r, text, finish), v, Fed(tool, text).Calls(), shown)
    decreases |text|
  {
    hide Tool.Valid, Tool.FeedByte, Vocab.Shape, Run, Speaks, Tool.Calls;
    assert text != "";
    var t1 := tool.FeedByte(text[0]);
    ActiveByte(r, text, finish);
    if t1.Live() {
      forall n | 0 <= n <= |text| - 1 && !Fed(t1, text[1..][..n]).Live() ensures Spaces(text[1..][n..]) {
        assert text[..n + 1][0] == text[0] && text[..n + 1][1..] == text[1..][..n];
        assert !Fed(tool, text[..n + 1]).Live();
        assert text[1..][n..] == text[n + 1..];
      }
      BlockDone(r.(tool := t1), v, t1, shown, text[1..], finish);
    } else {
      FedEnded(t1, text[1..]);
      EndByte(r, v, tool, shown, text[0]);
      assert text[..1][0] == text[0] && text[..1][1..] == "" && Fed(t1, "") == t1;
      assert !Fed(tool, text[..1]).Live();
      SpacesRun(BlockByte(r, text[0]), v, t1.Calls(), shown, text[1..], finish);
    }
  }

  /** A stanza on which the parser fails. */
  lemma {:induction false} BlockFails(r: Router, v: Vocab, tool: Tool, shown: string, text: string)
    requires InStanza(r, v, tool, shown) && tool.Live() && Fed(tool, text).Phase().Error?
    ensures r.Valid() && Broken(Run(r, text, true))
    decreases |text|
  {
    hide Tool.Valid, Tool.FeedByte, Vocab.Shape, Run;
    assert text != "";
    var t1 := tool.FeedByte(text[0]);
    ActiveByte(r, text, true);
    if t1.Live() {
      BlockFails(r.(tool := t1), v, t1, shown, text[1..]);
    } else {
      FedEnded(t1, text[1..]);
      EndByte(r, v, tool, shown, text[0]);
      BrokenRun(BlockByte(r, text[0]), text[1..]);
    }
  }

  // ---- the end of the message ----------------------------------------------------------

  lemma SettleFinished(r: Router, v: Vocab, calls: seq<Call>, shown: string)
    requires Finished(r, v, calls, shown)
    ensures r.Valid() && Finished(Settle(r), v, calls, shown)
  {
    hide Tool.Valid, Vocab.Shape;
  }

  /** A message that ends inside the stanza. */
  lemma SettleStanza(r: Router, v: Vocab, tool: Tool, shown: string)
    requires InStanza(r, v, tool, shown)
    ensures r.Valid() && tool.Finish().Valid()
    ensures var q := Settle(r);
            && q.tool == tool.Finish() && !q.dsmlInThink
            && (tool.Finish().Phase().Done? ==> Finished(q, v, tool.Calls(), shown))
  {
    hide Tool.Finish, Vocab.Shape;
  }

  /** What is decided about a parser in its last state. */
  function StanzaVerdict(t: Tool, gotTool: bool): Verdict {
    if t.Phase().Error? || (t.Live() && !gotTool) then MalformedTool
    else if gotTool || (t.Phase().Done? && t.Calls() != []) then Execute(t.Calls())
    else Answer
  }

  lemma VerdictOf(r: Router, gotTool: bool)
    requires !r.dsmlInThink
    ensures Decide(r, gotTool, false, false, false) == StanzaVerdict(r.tool, gotTool)
  {
  }

  /**
   A lead, a start form and any text behind it, of which the parser makes what it makes:
   calls are executed when it is done and only spaces follow, an unfinished or failed
   stanza is malformed, and one that is done without a call is an answer.
   */
  lemma StanzaMessage(v: Vocab, tool: Tool, lead: Lead, form: Form, rest: string, chunks: seq<string>, gotTool: bool)
    requires Speaks(v) && tool.Valid() && lead.Proper(v) && form in v.forms
    requires Opened(v, tool.Reset(), form).Live()
    requires Concat(chunks) == lead.Text(v) + (form.text + rest)
    requires var t := Opened(v, tool.Reset(), form); Fed(t, rest).Phase().Done? ==> OnlySpacesLeft(t, rest)
    ensures var r := Whole(v, tool, lead.Thought?, chunks);
            var last := Fed(Opened(v, tool.Reset(), form), rest);
            && !r.dsmlInThink && (!last.Phase().Error? ==> lead.Shown() <= r.shown)
            && Decide(r, gotTool, false, false, false)
               == StanzaVerdict(if last.Live() then last.Finish() else last, gotTool)
  {
    hide Tool.Valid, Tool.Reset, Vocab.Shape, Run, Settle, NewRouter, Speaks, Opened, Fed, Lead.Text, Lead.Shown,
         Lead.Proper, Whole, Decide, OnlySpacesLeft, Broken, Tool.Finish, StanzaVerdict, Tool.FeedByte;
    SpeaksTags(v);
    var t := Opened(v, tool.Reset(), form);
    var last := Fed(t, rest);
    var r := StartRun(v, tool, lead, form, rest, true);
    WholeIs(v, tool, lead.Thought?, chunks, lead.Text(v) + (form.text + rest));
    FedPhase(t, rest);
    StanzaEnds(r, v, t, lead.Shown(), rest);
    var q := Settle(Run(r, rest, true));
    VerdictOf(q, gotTool);
    VerdictAlike(q.tool, if last.Live() then last.Finish() else last, gotTool);
  }

  lemma FeedPhase(t: Tool, c: char)
    requires t.Valid() && !t.Phase().Search?
    ensures !t.FeedByte(c).Phase().Search?
  {
    hide D.Parse, G.Parse, D.Tags.Shape, G.GlmTags.Shape;
    match t
    case Dsml(p) => D.ParsePhase(p.Append([c]));
    case Glm(p) => G.ParsePhase(p.Append([c]));
  }

  /** A parser in a stanza never goes back to searching. */
  lemma {:induction false} FedPhase(t: Tool, s: string)
    requires t.Valid() && !t.Phase().Search?
    ensures !Fed(t, s).Phase().Search?
    decreases |s|
  {
    hide Tool.Valid, Tool.FeedByte, Tool.Phase;
    if s != "" {
      FeedPhase(t, s[0]);
      FedPhase(t.FeedByte(s[0]), s[1..]);
    }
  }

  /** What a stanza leaves when the message is over. */
  lemma StanzaEnds(r: Router, v: Vocab, t: Tool, shown: string, rest: string)
    requires Speaks(v) && InStanza(r, v, t, shown) && t.Live()
    requires Fed(t, rest).Phase().Done? ==> OnlySpacesLeft(t, rest)
    requires !Fed(t, rest).Phase().Search?
    ensures r.Valid()
    ensures var q := Settle(Run(r, rest, true));
            var last := Fed(t, rest);
            var end := if last.Live() then last.Finish() else last;
            && !q.dsmlInThink && q.tool.Phase() == end.Phase() && (!end.Phase().Error? ==> q.tool.Calls() == end.Calls())
            && (!last.Phase().Error? ==> shown <= q.shown)
  {
    hide Tool.Valid, Vocab.Shape, Run, Settle, Speaks, Fed, OnlySpacesLeft, Tool.Finish, Tool.FeedByte;
    var last := Fed(t, rest);
    if last.Live() {
      var q := BlockRun(r, v, t, shown, rest, "", true);
      assert rest + "" == rest && Run(q, "", true) == q by { RunNothing(q, true); }
      SettleStanza(q, v, last, shown);
      SettleShown(q, v, last, shown);
    } else if last.Phase().Done? {
      BlockDone(r, v, t, shown, rest, true);
      SettleFinished(Run(r, rest, true), v, last.Calls(), shown);
    } else {
      BlockFails(r, v, t, shown, rest);
      SettleFound(Run(r, rest, true));
      SettleBroken(Run(r, rest, true));
    }
  }

  lemma SettleShown(r: Router, v: Vocab, tool: Tool, shown: string)
    requires InStanza(r, v, tool, shown)
    ensures r.Valid() && Settle(r).shown == shown
  {
    hide Tool.Valid, Tool.Finish, Vocab.Shape;
  }

  lemma SettleBroken(r: Router)
    requires Broken(r)
    ensures Broken(Settle(r))
  {
    hide Tool.Valid, Vocab.Shape;
  }

  lemma VerdictAlike(t: Tool, u: Tool, gotTool: bool)
    requires t.Phase() == u.Phase() && (!u.Phase().Error? ==> t.Calls() == u.Calls())
    ensures StanzaVerdict(t, gotTool) == StanzaVerdict(u, gotTool)
  {
  }

  // ------------------------------------------------------------------------------------
  // DSML messages
  // ------------------------------------------------------------------------------------

  /** A block feeds the parser as agent_dsml_feed does. */
  lemma {:induction false} FedDsml(p: D.Parser, s: string)
    requires p.Valid() && p.Live()
    ensures Dsml(p).Valid() && Fed(Dsml(p), s).Phase() == D.Feed(p, s).phase
    ensures Fed(Dsml(p), s).Calls() == D.Feed(p, s).calls
    ensures D.Feed(p, s).Live() ==> Fed(Dsml(p), s) == Dsml(D.Feed(p, s))
    decreases |s|
  {
    hide D.Parse, D.Tags.Shape;
    if s != "" {
      var e := D.Parse(p.Append([s[0]]));
      D.ParsePhase(p.Append([s[0]]));
      if e.Live() {
        FedDsml(e, s[1..]);
      } else {
        FedEnded(Dsml(e), s[1..]);
        D.TerminalAbsorbs(e, s[1..]);
      }
    }
  }

  /** The vocabulary and the parser's tags belong together. */
  ghost predicate Belongs(v: Vocab, t: D.Tags) {
    Speaks(v) && DR.Vocabulary(t) && t.Shape() && v.invoke == t.openInvoke
  }

  /** What the parser is given before the text behind a form. */
  function Implied(t: D.Tags, form: Form): string {
    if form.implicitInvoke then t.openInvoke else ""
  }

  lemma StartDsml(t: D.Tags)
    requires t.Shape()
    ensures Dsml(D.Fresh(t)).Valid() && Dsml(D.Fresh(t)).Reset().Dsml?
    ensures Dsml(D.Fresh(t)).Reset().Start() == Dsml(D.Started(t))
    ensures D.Parse(D.Started(t)) == D.Started(t)
  {
    D.StartedWaits(t);
  }

  /** An opener without its '>' leaves the parser waiting. */
  lemma OpenerWaits(t: D.Tags, s: string)
    requires t.Shape() && forall k :: 0 <= k < |s| ==> s[k] != '>'
    ensures D.Parse(D.Started(t).Append(s)).Live()
  {
    hide D.OpenTag, FindChar;
    var p := D.Started(t).Append(s);
    var q := D.SkipSpaces(p);
    NoGt(p.raw, q.parsePos, |t.start|, s);
    if D.TagStep(q).Go? {
      D.TagGoHasGt(q);
    }
  }

  lemma NoGt(raw: string, from: nat, n: nat, s: string)
    requires n <= from <= |raw| && |raw| == n + |s| && raw[n..] == s && forall k :: 0 <= k < |s| ==> s[k] != '>'
    ensures FindChar(raw, '>', from).None?
  {
    forall k | from <= k < |raw| ensures raw[k] != '>' {
      assert raw[k] == raw[n..][k - n];
    }
  }

  /** The parser behind a form, and behind any text after it. */
  lemma OpenedDsml(v: Vocab, t: D.Tags, form: Form, rest: string)
    requires Belongs(v, t)
    ensures Dsml(D.Fresh(t)).Valid()
    ensures var o := Opened(v, Dsml(D.Fresh(t)).Reset(), form);
            var w := D.Parse(D.Started(t).Append(Implied(t, form) + rest));
            && o == Dsml(D.Parse(D.Started(t).Append(Implied(t, form)))) && o.Live()
            && Fed(o, rest).Phase() == w.phase && Fed(o, rest).Calls() == w.calls
            && (w.Live() ==> Fed(o, rest) == Dsml(w))
  {
    hide D.Parse, D.Feed, Fed, Tool.Start, Tool.Reset, Speaks, DR.Vocabulary, D.Tags.Shape;
    StartDsml(t);
    DR.VocabularyFacts(t);
    var p, pre := D.Started(t), Implied(t, form);
    OpenerWaits(t, pre);
    D.FeedIsOneParse(p, pre);
    FedDsml(p, pre);
    StartedLive(t);
    assert pre == "" ==> p.Append(pre) == p;
    FedNothing(Dsml(p));
    var p1 := D.Parse(p.Append(pre));
    D.ParseIdempotent(p.Append(pre));
    FedDsml(p1, rest);
    D.FeedIsOneParse(p1, rest);
    D.ParseExtend(p.Append(pre), rest);
    assert p.Append(pre).Append(rest) == p.Append(pre + rest);
  }

  lemma StartedLive(t: D.Tags)
    requires t.Shape()
    ensures D.Started(t).Valid() && D.Started(t).Live() && !D.Started(t).phase.Search?
  {
  }

  lemma FedNothing(t: Tool)
    requires t.Valid()
    ensures Fed(t, "") == t
  {
  }

  lemma EndedParse(p: D.Parser, x: string)
    requires p.Valid()
    ensures !p.Live() ==> D.Parse(p.Append(x)) == p.Append(x)
  {
  }

  /** The parser ends no earlier than where one parse of the whole text ends. */
  lemma EndsBehind(p: D.Parser, a: string, x: string)
    requires p.Valid() && !p.phase.Search? && D.Parse(p.Append(a + x)).phase.Done?
    ensures D.Parse(p.Append(a)).Live()
            || |p.raw| + |a| >= D.Parse(p.Append(a + x)).parsePos
  {
    hide D.Parse, D.Tags.Shape;
    D.ParseExtend(p.Append(a), x);
    assert p.Append(a).Append(x) == p.Append(a + x);
    D.ParsePhase(p.Append(a));
    EndedParse(D.Parse(p.Append(a)), x);
  }

  lemma DsmlSpacesLeft(v: Vocab, t: D.Tags, form: Form, rest: string)
    requires Belongs(v, t)
    requires var w := D.Parse(D.Started(t).Append(Implied(t, form) + rest));
             w.phase.Done? && Spaces(w.raw[w.parsePos..])
    ensures Dsml(D.Fresh(t)).Valid() && OnlySpacesLeft(Opened(v, Dsml(D.Fresh(t)).Reset(), form), rest)
  {
    hide D.Parse, Fed, Opened, Tool.Reset, Speaks, DR.Vocabulary, D.Tags.Shape;
    var p, pre := D.Started(t), Implied(t, form);
    var w := D.Parse(p.Append(pre + rest));
    OpenedDsml(v, t, form, rest);
    StartedLive(t);
    var o := Opened(v, Dsml(D.Fresh(t)).Reset(), form);
    forall n | 0 <= n <= |rest| && !Fed(o, rest[..n]).Live() ensures Spaces(rest[n..]) {
      OpenedDsml(v, t, form, rest[..n]);
      assert pre + rest == (pre + rest[..n]) + rest[n..];
      EndsBehind(p, pre + rest[..n], rest[n..]);
      SpacesTail(w.raw, w.parsePos, |p.raw| + |pre| + n);
      assert w.raw[|p.raw| + |pre| + n..] == rest[n..];
    }
  }

  lemma SpacesTail(s: string, i: nat, j: nat)
    requires i <= j <= |s| && Spaces(s[i..])
    ensures Spaces(s[j..])
  {
    forall k | 0 <= k < |s[j..]| ensures IsSpace(s[j..][k]) {
      assert s[j..][k] == s[i..][k + (j - i)];
    }
  }

  /** What is decided about a DSML message, by what the parser makes of its stanza. */
  function DsmlVerdict(w: D.Parser, gotTool: bool): Verdict {
    if w.phase.Error? || (w.Live() && !gotTool) then MalformedTool
    else if gotTool || (w.phase.Done? && w.calls != []) then Execute(w.calls)
    else Answer
  }

  /**
   A lead, a start form and any text, cut into any chunks: decided by one parse of the
   stanza, whichever form opened it.
   */
  lemma DsmlMessage(v: Vocab, t: D.Tags, lead: Lead, form: Form, rest: string, chunks: seq<string>, gotTool: bool)
    requires Belongs(v, t) && lead.Proper(v) && form in v.forms
    requires Concat(chunks) == lead.Text(v) + (form.text + rest)
    requires var w := D.Parse(D.Started(t).Append(Implied(t, form) + rest));
             w.phase.Done? ==> Spaces(w.raw[w.parsePos..])
    ensures Dsml(D.Fresh(t)).Valid()
    ensures var r := Whole(v, Dsml(D.Fresh(t)), lead.Thought?, chunks);
            var w := D.Parse(D.Started(t).Append(Implied(t, form) + rest));
            && Decide(r, gotTool, false, false, false) == DsmlVerdict(w, gotTool)
            && !r.dsmlInThink && (!w.phase.Error? ==> lead.Shown() <= r.shown)
  {
    hide D.Parse, Fed, Opened, Tool.Reset, Speaks, DR.Vocabulary, D.Tags.Shape, Whole, Decide, Lead.Text, Lead.Shown,
         Lead.Proper, OnlySpacesLeft;
    OpenedDsml(v, t, form, rest);
    var w := D.Parse(D.Started(t).Append(Implied(t, form) + rest));
    if w.phase.Done? {
      DsmlSpacesLeft(v, t, form, rest);
    }
    StanzaMessage(v, Dsml(D.Fresh(t)), lead, form, rest, chunks, gotTool);
  }

  /**
   The same message when the preflight of an edit failed, or the user interrupted:
   reported as that, whatever the stanza and the other flags say.
   */
  lemma PreflightReported(v: Vocab, t: D.Tags, lead: Lead, form: Form, rest: string, chunks: seq<string>,
                          gotTool: bool, malformed: bool, preflight: bool)
    requires Belongs(v, t) && lead.Proper(v) && form in v.forms
    requires Concat(chunks) == lead.Text(v) + (form.text + rest)
    requires var w := D.Parse(D.Started(t).Append(Implied(t, form) + rest));
             w.phase.Done? ==> Spaces(w.raw[w.parsePos..])
    ensures Dsml(D.Fresh(t)).Valid()
    ensures var r := Whole(v, Dsml(D.Fresh(t)), lead.Thought?, chunks);
            && Decide(r, gotTool, malformed, true, false) == PreflightError
            && Decide(r, gotTool, malformed, preflight, true) == Stopped
  {
    hide D.Parse, Speaks, DR.Vocabulary, D.Tags.Shape, Whole, Decide, Lead.Text, Lead.Shown, Lead.Proper, Implied;
    SpeaksTags(v);
    DsmlMessage(v, t, lead, form, rest, chunks, gotTool);
    DecidedFirst(Whole(v, Dsml(D.Fresh(t)), lead.Thought?, chunks), gotTool, malformed, preflight);
  }

  /** After a finished DSML message, at its last byte already, the parser is done with the calls. */
  lemma DsmlRun(v: Vocab, t: D.Tags, lead: Lead, form: Form, rest: string, finish: bool) returns (q: Router)
    requires Belongs(v, t) && lead.Proper(v) && form in v.forms
    requires var w := D.Parse(D.Started(t).Append(Implied(t, form) + rest));
             w.phase.Done? && Spaces(w.raw[w.parsePos..])
    ensures Dsml(D.Fresh(t)).Valid() && NewRouter(v, Dsml(D.Fresh(t)), lead.Thought?).Valid()
    ensures Finished(q, v, D.Parse(D.Started(t).Append(Implied(t, form) + rest)).calls, lead.Shown())
    ensures Run(NewRouter(v, Dsml(D.Fresh(t)), lead.Thought?), lead.Text(v) + (form.text + rest), finish) == q
  {
    hide D.Parse, Fed, Opened, Tool.Reset, Speaks, DR.Vocabulary, D.Tags.Shape, Run, NewRouter, Lead.Text, Lead.Shown,
         Lead.Proper, OnlySpacesLeft, Finished;
    OpenedDsml(v, t, form, rest);
    DsmlSpacesLeft(v, t, form, rest);
    var r := StartRun(v, Dsml(D.Fresh(t)), lead, form, rest, finish);
    BlockDone(r, v, Opened(v, Dsml(D.Fresh(t)).Reset(), form), lead.Shown(), rest, finish);
    q := Run(r, rest, finish);
  }

  /** One parse of a printed stanza, opened by any form, and what is left behind it. */
  lemma PrintedDone(t: D.Tags, form: Form, gap: string, calls: seq<Call>, after: string, rest: string)
    requires DR.Vocabulary(t) && t.Shape() && Spaces(gap) && Spaces(after)
    requires forall k :: 0 <= k < |calls| ==> DR.PrintableCall(t, calls[k])
    requires Implied(t, form) + rest == DR.Body(t, gap, calls) + after
    ensures var w := D.Parse(D.Started(t).Append(Implied(t, form) + rest));
            w.phase.Done? && w.calls == calls && Spaces(w.raw[w.parsePos..])
  {
    hide D.Parse, DR.Vocabulary, DR.PrintableCall, DR.Body, D.Tags.Shape;
    DR.StanzaParses(t, gap, calls, after);
    var w := D.Parse(D.Started(t).Append(Implied(t, form) + rest));
    assert w.raw == D.Started(t).raw + (DR.Body(t, gap, calls) + after);
    assert w.raw[w.parsePos..] == after;
  }

  /**
   A message with a printed DSML stanza, opened by any of the start forms, with or without
   spaces and line breaks behind it, however it was streamed: exactly the printed calls
   are executed.
   */
  lemma DsmlMessageExecutes(v: Vocab, t: D.Tags, lead: Lead, form: Form, gap: string, calls: seq<Call>,
                            after: string, rest: string, chunks: seq<string>, gotTool: bool)
    requires Belongs(v, t) && lead.Proper(v) && form in v.forms && Spaces(gap) && Spaces(after)
    requires forall k :: 0 <= k < |calls| ==> DR.PrintableCall(t, calls[k])
    requires calls != [] || gotTool
    requires Implied(t, form) + rest == DR.Body(t, gap, calls) + after
    requires Concat(chunks) == lead.Text(v) + (form.text + rest)
    ensures Dsml(D.Fresh(t)).Valid()
    ensures Decide(Whole(v, Dsml(D.Fresh(t)), lead.Thought?, chunks), gotTool, false, false, false) == Execute(calls)
  {
    hide D.Parse, Speaks, DR.Vocabulary, D.Tags.Shape, Whole, Decide, Lead.Text, Lead.Shown, Lead.Proper, DR.Body,
         DR.PrintableCall;
    PrintedDone(t, form, gap, calls, after, rest);
    DsmlMessage(v, t, lead, form, rest, chunks, gotTool);
  }

  /**
   A lead and a start form with any text that nothing but spaces follows: calls are
   executed exactly when the text is a complete stanza of those calls, and it is reported
   as malformed exactly when it is no complete stanza.
   */
  lemma DsmlMessageIff(v: Vocab, t: D.Tags, lead: Lead, form: Form, rest: string, chunks: seq<string>, calls: seq<Call>)
    requires Belongs(v, t) && lead.Proper(v) && form in v.forms && calls != []
    requires Concat(chunks) == lead.Text(v) + (form.text + rest)
    requires forall done, after :: DG.Accepts(t, Implied(t, form) + rest, done, after) ==> Spaces(after)
    ensures Dsml(D.Fresh(t)).Valid()
    ensures var r := Whole(v, Dsml(D.Fresh(t)), lead.Thought?, chunks);
            var s := Implied(t, form) + rest;
            && (Decided(r) == Execute(calls) <==> exists after :: DG.Accepts(t, s, calls, after))
            && (Decided(r) == MalformedTool <==> forall done, after :: !DG.Accepts(t, s, done, after))
  {
    hide D.Parse, Speaks, DR.Vocabulary, D.Tags.Shape, Whole, Decide, Lead.Text, Lead.Shown, Lead.Proper, DG.Accepts,
         DG.Rejects, Implied;
    var s := Implied(t, form) + rest;
    var w := D.Parse(D.Started(t).Append(s));
    DG.ParsesStanzas(t, s, w.calls, w.raw[w.parsePos..], w.error);
    forall done, after | DG.Accepts(t, s, done, after)
      ensures w.phase.Done? && w.calls == done && w.raw[w.parsePos..] == after
    {
      DG.ParsesStanzas(t, s, done, after, w.error);
    }
    DsmlMessage(v, t, lead, form, rest, chunks, false);
  }

  /** A printed stanza cut off before the end of its last tag leaves the parser waiting. */
  lemma BodyLive(t: D.Tags, gap: string, calls: seq<Call>, a: string, x: string)
    requires DR.Vocabulary(t) && t.Shape() && Spaces(gap) && a + x == DR.Body(t, gap, calls) && x != ""
    requires forall k :: 0 <= k < |calls| ==> DR.PrintableCall(t, calls[k])
    ensures D.Parse(D.Started(t).Append(a)).Live()
  {
    hide D.Parse, DR.Vocabulary, DR.PrintableCall, DR.Body, D.Tags.Shape;
    var body := DR.Body(t, gap, calls);
    DR.StanzaParses(t, gap, calls, "");
    assert body + "" == body;
    StartedLive(t);
    EndsBehind(D.Started(t), a, x);
  }

  /** A message that breaks off inside a printed DSML stanza is reported as malformed. */
  lemma DsmlUnfinished(v: Vocab, t: D.Tags, lead: Lead, form: Form, gap: string, calls: seq<Call>, rest: string,
                       missing: string, chunks: seq<string>)
    requires Belongs(v, t) && lead.Proper(v) && form in v.forms && Spaces(gap) && missing != ""
    requires forall k :: 0 <= k < |calls| ==> DR.PrintableCall(t, calls[k])
    requires Implied(t, form) + rest + missing == DR.Body(t, gap, calls)
    requires Concat(chunks) == lead.Text(v) + (form.text + rest)
    ensures Dsml(D.Fresh(t)).Valid()
    ensures Decided(Whole(v, Dsml(D.Fresh(t)), lead.Thought?, chunks)) == MalformedTool
  {
    hide D.Parse, Speaks, DR.Vocabulary, D.Tags.Shape, Whole, Decide, Lead.Text, Lead.Shown, Lead.Proper, DR.Body,
         DR.PrintableCall;
    BodyLive(t, gap, calls, Implied(t, form) + rest, missing);
    DsmlMessage(v, t, lead, form, rest, chunks, false);
  }

  // ------------------------------------------------------------------------------------
  // GLM messages
  // ------------------------------------------------------------------------------------

  lemma {:induction false} FedGlm(p: G.Glm, s: string)
    requires p.Valid() && p.tags.Shape()
    ensures Glm(p).Valid() && Fed(Glm(p), s).Phase() == G.Feed(p, s).phase
    ensures Fed(Glm(p), s).Calls() == G.Feed(p, s).calls
    ensures G.Feed(p, s).Live() ==> Fed(Glm(p), s) == Glm(G.Feed(p, s))
    decreases |s|
  {
    hide G.Parse, G.GlmTags.Shape;
    if !p.Live() {
      FedEnded(Glm(p), s);
      G.EndedAbsorbs(p, s);
    } else if s != "" {
      FedGlm(G.Parse(p.Append([s[0]])), s[1..]);
    }
  }

  /** The parser of a new message. */
  function FreshGlm(t: G.GlmTags): G.Glm {
    G.Glm(t, Search, "", 0, NO_CALL, "", false, [], NoReason)
  }

  lemma OpenedGlm(v: Vocab, t: G.GlmTags, form: Form)
    requires t.Shape()
    ensures Glm(FreshGlm(t)).Valid()
    ensures Opened(v, Glm(FreshGlm(t)).Reset(), form) == Glm(G.Started(t)) && Glm(G.Started(t)).Live()
  {
    assert "" + t.start == t.start;
  }

  /** What is decided about a GLM message, by what streaming its stanza makes of the parser. */
  function GlmVerdict(f: G.Glm): Verdict
    requires f.Valid()
  {
    var g := if f.Live() then G.Finish(f) else f;
    if g.phase.Done? then if g.calls != [] then Execute(g.calls) else Answer
    else if g.phase.Error? || g.Live() then MalformedTool
    else Answer
  }

  /** A lead, a start form and a stanza that the parser does not end by itself with success. */
  lemma GlmMessage(v: Vocab, t: G.GlmTags, lead: Lead, form: Form, rest: string, chunks: seq<string>)
    requires Speaks(v) && t.Shape() && lead.Proper(v) && form in v.forms
    requires Concat(chunks) == lead.Text(v) + (form.text + rest)
    requires !G.Feed(G.Started(t), rest).phase.Done?
    ensures Glm(FreshGlm(t)).Valid()
    ensures var r := Whole(v, Glm(FreshGlm(t)), lead.Thought?, chunks);
            var f := G.Feed(G.Started(t), rest);
            && Decided(r) == GlmVerdict(f)
            && !r.dsmlInThink && (!f.phase.Error? ==> lead.Shown() <= r.shown)
  {
    hide G.Feed, Fed, Opened, Tool.Reset, Speaks, G.GlmTags.Shape, Whole, Decide, Lead.Text, Lead.Shown,
         Lead.Proper, OnlySpacesLeft, FreshGlm, G.Finish;
    OpenedGlm(v, t, form);
    FedGlm(G.Started(t), rest);
    StanzaMessage(v, Glm(FreshGlm(t)), lead, form, rest, chunks, false);
  }

  /** The last state of the stream, by the grammar. */
  lemma GlmFeedIs(t: G.GlmTags, rest: string)
    requires t.Shape()
    ensures G.Started(t).Valid() && G.Started(t).tags == t
    ensures var p := G.Started(t);
            if G.TooEarly(p, rest) then G.Feed(p, rest).phase.Error? else G.Feed(p, rest) == G.Parse(p.Append(rest))
  {
    hide G.Feed, G.Parse, G.GlmTags.Shape, G.Hasty;
    var p := G.Started(t);
    GR.StartedWaits(t);
    G.FeedIsOneParseIff(p, rest);
    if G.TooEarly(p, rest) {
      var n :| 0 <= n <= |rest| && G.Hasty(G.Parse(p.Append(rest[..n])), p.raw + rest);
      G.HastyFails(G.Parse(p.Append(rest[..n])), p.raw + rest);
      G.FeedFails(p, rest);
    }
  }

  /**
   A lead and a start form with any text that does not end the stanza early: calls are
   executed exactly when the text is a complete stanza of those calls in which the parser
   never gives up too early; otherwise it is reported as malformed.
   */
  lemma GlmStanzaIff(v: Vocab, t: G.GlmTags, lead: Lead, form: Form, rest: string, chunks: seq<string>, calls: seq<Call>)
    requires Speaks(v) && t.Shape() && lead.Proper(v) && form in v.forms && calls != []
    requires Concat(chunks) == lead.Text(v) + (form.text + rest)
    requires !G.Feed(G.Started(t), rest).phase.Done?
    ensures Glm(FreshGlm(t)).Valid() && G.Started(t).Valid() && G.Started(t).tags == t
    ensures var r := Whole(v, Glm(FreshGlm(t)), lead.Thought?, chunks);
            && (Decided(r) == Execute(calls) <==> !G.TooEarly(G.Started(t), rest) && GG.Accepts(t, rest, calls))
            && (Decided(r) == MalformedTool <==>
                  G.TooEarly(G.Started(t), rest) || forall done :: !GG.Accepts(t, rest, done))
  {
    hide G.Feed, G.Parse, Speaks, G.GlmTags.Shape, Whole, Decide, Lead.Text, Lead.Shown, Lead.Proper, FreshGlm,
         GG.Accepts, GG.Rejects, G.TooEarly, G.Finish;
    GlmMessage(v, t, lead, form, rest, chunks);
    GlmFeedIs(t, rest);
    var f := G.Feed(G.Started(t), rest);
    var w := G.Parse(G.Started(t).Append(rest));
    FinishKeeps(w);
    GG.ParsesStanzas(t, rest, G.Finish(w).calls, NoReason);
    forall done ensures GG.Accepts(t, rest, done) <==> G.Finish(w).phase.Done? && G.Finish(w).calls == done {
      GG.ParsesStanzas(t, rest, done, NoReason);
    }
    G.ParsePhase(G.Started(t).Append(rest));
    GG.CompleteHasCalls(t, rest);
  }

  lemma FinishKeeps(w: G.Glm)
    requires w.Valid()
    ensures !w.Live() ==> G.Finish(w).phase == w.phase || w.phase.Search?
    ensures w.phase.Error? ==> G.Finish(w) == w
    ensures G.Finish(w).phase.Done? || G.Finish(w).phase == w.phase
  {
  }

  /** A GLM stanza is still open at its last byte: another call might follow. */
  lemma GlmRun(v: Vocab, t: G.GlmTags, lead: Lead, form: Form, calls: seq<Call>, after: string, finish: bool)
      returns (q: Router, g: G.Glm)
    requires t.Shape() && calls != [] && GR.PrintableCalls(t, calls) && GR.PlainCalls(t, calls)
    requires Speaks(v) && lead.Proper(v) && form in v.forms && Spaces(after)
    ensures InStanza(q, v, Glm(g), lead.Shown()) && GR.Complete(g, calls) && Glm(FreshGlm(t)).Valid()
    ensures NewRouter(v, Glm(FreshGlm(t)), lead.Thought?).Valid()
    ensures Run(NewRouter(v, Glm(FreshGlm(t)), lead.Thought?), lead.Text(v) + (form.text + GR.Stanza(t, calls, after)),
                finish) == q
  {
    hide G.GlmTags.Shape, GR.PrintableCalls, GR.PlainCalls, GR.Stanza, G.Feed, G.Parse, Fed, Run, NewRouter, Opened,
         Lead.Text, Lead.Proper, Lead.Shown, Tool.Start, Tool.Reset, FreshGlm, Speaks;
    OpenedGlm(v, t, form);
    var p, body := G.Started(t), GR.Stanza(t, calls, after);
    var r := StartRun(v, Glm(FreshGlm(t)), lead, form, body, finish);
    FedGlm(p, body);
    GR.StanzaStreams(t, calls, after);
    GR.StanzaParses(t, calls, after);
    g := G.Feed(p, body);
    q := BlockRun(r, v, Glm(p), lead.Shown(), body, "", finish);
    assert body + "" == body && Run(q, "", finish) == q by { RunNothing(q, finish); }
  }

  /**
   A message with a printed GLM stanza, with or without spaces and line breaks behind it,
   however it was streamed: exactly the printed calls are executed if and only if no key
   and no value shows the end of the call; otherwise the stanza is reported as malformed
   and nothing is executed.
   */
  lemma GlmMessageIff(v: Vocab, t: G.GlmTags, lead: Lead, form: Form, calls: seq<Call>, after: string,
                      chunks: seq<string>)
    requires t.Shape() && calls != [] && GR.PrintableCalls(t, calls)
    requires Speaks(v) && lead.Proper(v) && form in v.forms && Spaces(after)
    requires Concat(chunks) == lead.Text(v) + (form.text + GR.Stanza(t, calls, after))
    ensures Glm(FreshGlm(t)).Valid()
    ensures Decided(Whole(v, Glm(FreshGlm(t)), lead.Thought?, chunks))
            == if GR.PlainCalls(t, calls) then Execute(calls) else MalformedTool
  {
    hide G.GlmTags.Shape, GR.PrintableCalls, GR.PlainCalls, GR.Stanza, Whole, Decide, Lead.Text, Lead.Proper,
         Lead.Shown, FreshGlm, Speaks, G.Feed, G.Parse, GR.DoneWith;
    var body := GR.Stanza(t, calls, after);
    var f := G.Feed(G.Started(t), body);
    GR.StreamRoundTripIff(t, calls, after);
    if GR.PlainCalls(t, calls) {
      GR.StanzaStreams(t, calls, after);
      GR.StanzaParses(t, calls, after);
    }
    GlmFeedEnds(t, f, calls, GR.PlainCalls(t, calls));
    GlmMessage(v, t, lead, form, body, chunks);
  }

  lemma GlmFeedEnds(t: G.GlmTags, f: G.Glm, calls: seq<Call>, plain: bool)
    requires f.Valid() && (if plain then GR.Complete(f, calls) && GR.DoneWith(G.Finish(f), calls) else f.phase.Error?)
    requires calls != []
    ensures !f.phase.Done? && GlmVerdict(f) == if plain then Execute(calls) else MalformedTool
  {
  }

  /** A GLM message that breaks off inside a call is reported as malformed. */
  lemma GlmUnfinished(v: Vocab, t: G.GlmTags, lead: Lead, form: Form, rest: string, chunks: seq<string>)
    requires Speaks(v) && t.Shape() && lead.Proper(v) && form in v.forms
    requires Concat(chunks) == lead.Text(v) + (form.text + rest)
    requires G.Feed(G.Started(t), rest).Live() && !G.Feed(G.Started(t), rest).afterCall
    ensures Glm(FreshGlm(t)).Valid()
    ensures Decided(Whole(v, Glm(FreshGlm(t)), lead.Thought?, chunks)) == MalformedTool
  {
    hide G.Feed, Speaks, G.GlmTags.Shape, Whole, Decide, Lead.Text, Lead.Shown, Lead.Proper, FreshGlm;
    GlmMessage(v, t, lead, form, rest, chunks);
  }

  // ------------------------------------------------------------------------------------
  // The agent's vocabularies
  // ------------------------------------------------------------------------------------

  /** One of the four. */
  ghost predicate DsmlForm(f: string) {
    f == DSML_FORMS[0].text || f == DSML_FORMS[1].text || f == DSML_FORMS[2].text || f == DSML_FORMS[3].text
  }

  lemma DsmlFormBegins(f: string)
    requires DsmlForm(f)
    ensures 1 < |f| <= START_TAIL && f[0] == '<' && f[1] != 't' && f[1] != '/'
  {
  }

  lemma DsmlFormAngled(f: string, i: nat)
    requires DsmlForm(f) && 1 <= i < |f|
    ensures f[i] != '<'
  {
  }

  lemma DsmlFormTight(f: string, i: nat)
    requires DsmlForm(f) && i < |f|
    ensures !IsSpace(f[i])
  {
  }

  lemma DsmlFormShape(k: nat)
    requires k < 4
    ensures FormShape(DSML_VOCAB, DSML_FORMS[k].text)
  {
    hide IsSpace;
    var f := DSML_FORMS[k].text;
    assert DsmlForm(f);
    hide DsmlForm, DSML_FORMS;
    DsmlFormBegins(f);
    forall i | 1 <= i < |f| ensures f[i] != '<' {
      DsmlFormAngled(f, i);
    }
    forall i | 0 <= i < |f| ensures !IsSpace(f[i]) {
      DsmlFormTight(f, i);
    }
    assert THINK.open[1] == 't' && THINK.close[1] == '/';
  }

  /** Where the forms differ: behind the '<', and at the start of the tag's name. */
  lemma DsmlFormBytes()
    ensures DSML_FORMS[0].text[1] != 'D' && DSML_FORMS[0].text[11] == 't' && |DSML_FORMS[0].text| > 11
    ensures DSML_FORMS[1].text[1] == 'D' && DSML_FORMS[1].text[8] == 't' && |DSML_FORMS[1].text| > 11
    ensures DSML_FORMS[2].text[1] != 'D' && DSML_FORMS[2].text[11] == 'i' && |DSML_FORMS[2].text| > 11
    ensures DSML_FORMS[3].text[1] == 'D' && DSML_FORMS[3].text[8] == 'i' && |DSML_FORMS[3].text| > 11
  {
  }

  lemma DsmlFormsApart(j: nat, k: nat)
    requires j < 4 && k < 4 && j != k
    ensures !(DSML_FORMS[j].text <= DSML_FORMS[k].text)
  {
    DsmlFormBytes();
  }

  lemma MarkersEnd()
    ensures forall k :: 0 <= k < |DSML_MARKERS| ==>
              (|DSML_MARKERS[k]| > 0 && !IsSpace(DSML_MARKERS[k][|DSML_MARKERS[k]| - 1]))
  {
  }

  lemma ThinkAngled()
    ensures Angled(THINK.open) && Angled(THINK.close)
  {
  }

  /** The agent's own start forms, think tags and markers are as the theorems assume. */
  lemma DsmlSpeaks()
    ensures Belongs(DSML_VOCAB, D.DSML_TAGS)
  {
    hide Angled, Vocab.Shape, FormShape, DR.Vocabulary, D.Tags.Shape;
    AgentVocabularies();
    MarkersEnd();
    ThinkAngled();
    forall k | 0 <= k < |DSML_VOCAB.forms| ensures FormShape(DSML_VOCAB, DSML_VOCAB.forms[k].text) {
      DsmlFormShape(k);
    }
    forall j, k | 0 <= j < |DSML_VOCAB.forms| && 0 <= k < |DSML_VOCAB.forms| && j != k
      ensures !(DSML_VOCAB.forms[j].text <= DSML_VOCAB.forms[k].text)
    {
      DsmlFormsApart(j, k);
    }
    DR.DsmlVocabulary();
    D.DsmlTagsShape();
  }

  lemma GlmForm()
    ensures FormShape(GLM_VOCAB, GLM_VOCAB.forms[0].text)
  {
    var f := GLM_VOCAB.forms[0].text;
    assert f[2] != THINK.open[2] && f[1] != THINK.close[1];
  }

  lemma GlmSpeaks()
    ensures Speaks(GLM_VOCAB) && GLM_VOCAB.forms[0].text == G.GLM_TAGS.start
  {
    hide Angled, Vocab.Shape, FormShape;
    AgentVocabularies();
    MarkersEnd();
    ThinkAngled();
    GlmForm();
  }
}
