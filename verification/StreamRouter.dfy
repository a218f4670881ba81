/**
 The stream router of the agent: think tags, the tool-start detector, blocks ignored
 inside thinking and the marker detectors, around the tool-call parsers.

 `Router` is `agent_stream_renderer` without its terminal side; the bytes handed to the
 renderer are kept in `shown`.  Two history fields record what the safety theorem speaks
 about: `opens`, whether thinking was open at each recognised block start; `thought`, the
 bytes the thinking detector was given.
 */
module StreamRouter {
  import opened Strings
  import opened ThinkTags
  import opened ToolCalls
  import D = ToolParser
  import G = GlmParser

  // ------------------------------------------------------------------------------------
  // Either parser
  // ------------------------------------------------------------------------------------

  datatype Tool = Dsml(d: D.Parser) | Glm(g: G.Glm)
  {
    ghost predicate Valid() {
      match this
      case Dsml(d) => d.Valid()
      case Glm(g) => g.Valid() && g.tags.Shape()
    }

    function Phase(): Phase {
      if Dsml? then d.phase else g.phase
    }

    function Calls(): seq<Call> {
      if Dsml? then d.calls else g.calls
    }

    predicate Live() {
      Phase().Structural? || Phase().ParamValue?
    }

    /** agent_dsml_start */
    function Start(): (r: Tool)
      requires Valid()
      ensures r.Valid() && r.Live() && r.Calls() == Calls()
    {
      match this
      case Dsml(p) => Dsml(D.Start(p))
      case Glm(p) => Glm(p.(phase := Structural, raw := p.raw + p.tags.start, parsePos := |p.tags.start|))
    }

    /** agent_dsml_feed of one byte, by a router that is inside a block. */
    function FeedByte(c: char): (r: Tool)
      requires Valid()
      ensures r.Valid()
    {
      if !Live() then this
      else
        match this
        case Dsml(p) => Dsml(D.Parse(p.Append([c])))
        case Glm(p) => Glm(G.Parse(p.Append([c])))
    }

    /** agent_dsml_parser_reset */
    function Reset(): (r: Tool)
      requires Valid()
      ensures r.Valid() && r.Phase().Search? && r.Calls() == []
    {
      match this
      case Dsml(p) => Dsml(D.Fresh(p.tags))
      case Glm(p) => Glm(G.Glm(p.tags, Search, "", 0, NO_CALL, "", false, [], NoReason))
    }

    /** agent_dsml_set_error by agent_stream_malformed_dsml */
    function Malformed(): (r: Tool)
      requires Valid()
      ensures r.Valid() && r.Phase().Error? && r.Calls() == Calls()
    {
      match this
      case Dsml(p) => Dsml(p.Fail(MarkerOutsideBlock))
      case Glm(p) => Glm(p.Fail(MarkerOutsideBlock))
    }

    /** agent_dsml_finish */
    function Finish(): (r: Tool)
      requires Valid()
      ensures r.Valid() && r.Calls() == Calls()
    {
      match this
      case Dsml(_) => this
      case Glm(p) => Glm(G.Finish(p))
    }
  }

  // ------------------------------------------------------------------------------------
  // The router
  // ------------------------------------------------------------------------------------

  /** A start form and whether it is a bare invoke that implies the block around it. */
  datatype Form = Form(text: string, implicitInvoke: bool)

  datatype Vocab = Vocab(
    think: Think,
    forms: seq<Form>,
    invoke: string,
    markers: seq<string>)
  {
    ghost predicate Shape() {
      && think.Shape()
      && forall k :: 0 <= k < |markers| ==> 0 < |markers[k]| <= DETECTOR
    }
  }

  /** sizeof(dsml_start_tail), sizeof(agent_dsml_marker_detector.tail) */
  const START_TAIL := 64
  const DETECTOR := 32

  datatype Router = Router(
    vocab: Vocab,
    tool: Tool,
    inThink: bool,
    active: bool,
    ignored: bool,
    pending: string,
    startTail: string,
    plainTail: string,
    thinkTail: string,
    dsmlInThink: bool,
    reported: bool,
    postThinkGap: bool,
    shown: string,
    opens: seq<bool>,
    thought: string)
  {
    ghost predicate Valid() {
      tool.Valid() && vocab.Shape()
    }
  }

  /** agent_dsml_marker_detector_feed: the window after one more byte. */
  function Window(tail: string, c: char): string {
    (if |tail| == DETECTOR then tail[1..] else tail) + [c]
  }

  predicate EndsInMarker(tail: string, markers: seq<string>) {
    exists k :: 0 <= k < |markers| && OccursAt(tail, |tail| - |markers[k]|, markers[k])
  }

  /** agent_stream_note_thinking_dsml_byte */
  function NoteThinking(r: Router, c: char): (q: Router)
    requires r.Valid()
    ensures q.Valid() && q.pending == r.pending && q.vocab == r.vocab
  {
    if !r.inThink then r
    else if r.dsmlInThink then r
    else
      var tail := Window(r.thinkTail, c);
      r.(thinkTail := tail, thought := r.thought + [c],
         dsmlInThink := EndsInMarker(tail, r.vocab.markers))
  }

  /** agent_stream_note_plain_dsml_byte */
  function NotePlain(r: Router, c: char): (q: Router)
    requires r.Valid()
    ensures q.Valid() && q.pending == r.pending && q.vocab == r.vocab
  {
    if r.tool.Phase().Error? || r.active || r.inThink || r.dsmlInThink then r
    else
      var tail := Window(r.plainTail, c);
      var q := r.(plainTail := tail);
      if EndsInMarker(tail, r.vocab.markers) then q.(tool := q.tool.Malformed()) else q
  }

  function Show(r: Router, c: char): (q: Router)
    requires r.Valid()
    ensures q.Valid() && q.pending == r.pending && q.vocab == r.vocab
  {
    NotePlain(r.(shown := r.shown + [c]), c)
  }

  /** Held bytes turn out to be plain text; the first malformed marker stops the loop. */
  function ShowAll(r: Router, s: string): (q: Router)
    requires r.Valid()
    ensures q.Valid() && q.pending == r.pending && q.vocab == r.vocab
    decreases |s|
  {
    if s == "" then r
    else
      var q := Show(r, s[0]);
      if q.tool.Phase().Error? then q else ShowAll(q, s[1..])
  }

  /** agent_stream_flush_start_tail */
  function FlushStartTail(r: Router): (q: Router)
    requires r.Valid()
    ensures q.Valid() && q.pending == r.pending && q.vocab == r.vocab
  {
    if r.startTail == "" then r
    else ShowAll(r.(postThinkGap := false), r.startTail).(startTail := "")
  }

  /** agent_stream_finish_ignored_dsml */
  function FinishIgnored(r: Router): (q: Router)
    requires r.Valid()
    ensures q.Valid() && q.pending == r.pending && q.vocab == r.vocab
  {
    r.(dsmlInThink := true, reported := true, tool := r.tool.Reset(), active := false, ignored := false)
  }

  /** What a finished or failed block leaves behind. */
  function LeaveBlock(r: Router): (q: Router)
    requires r.Valid()
    ensures q.Valid() && q.pending == r.pending && q.vocab == r.vocab
  {
    if r.ignored then FinishIgnored(r) else r.(active := false)
  }

  /** agent_stream_feed_dsml_byte */
  function BlockByte(r: Router, c: char): (q: Router)
    requires r.Valid()
    ensures q.Valid() && q.pending == r.pending && q.vocab == r.vocab
  {
    var q := r.(tool := r.tool.FeedByte(c));
    if q.tool.Phase().Done? || q.tool.Phase().Error? then LeaveBlock(q) else q
  }

  function BlockBytes(r: Router, s: string): (q: Router)
    requires r.Valid()
    ensures q.Valid() && q.pending == r.pending && q.vocab == r.vocab
    decreases |s|
  {
    if s == "" then r else BlockBytes(BlockByte(r, s[0]), s[1..])
  }

  /** agent_stream_start_dsml */
  function StartBlock(r: Router, implicitInvoke: bool): (q: Router)
    requires r.Valid()
    ensures q.Valid() && q.pending == r.pending && q.vocab == r.vocab
  {
    var q := r.(active := true, ignored := r.inThink, dsmlInThink := r.dsmlInThink || r.inThink,
                startTail := "", postThinkGap := false, tool := r.tool.Start(),
                opens := r.opens + [r.inThink]);
    if q.tool.Dsml? && implicitInvoke then BlockBytes(q, r.vocab.invoke) else q
  }

  /** agent_stream_dsml_start_match: the first form the held bytes begin. */
  function MatchForm(forms: seq<Form>, tail: string): Option<Form> {
    if forms == [] then None
    else if tail <= forms[0].text then Some(forms[0])
    else MatchForm(forms[1..], tail)
  }

  /** The start detector holds `tail`, which now begins no form. */
  function Unmatched(r: Router, tail: string): (q: Router)
    requires r.Valid() && tail != ""
    ensures q.Valid() && q.pending == r.pending && q.vocab == r.vocab
  {
    var last := |tail| - 1;
    if last > 0 && tail[last] == '<' then
      var q := ShowAll(r.(postThinkGap := false), tail[..last]);
      q.(startTail := if q.tool.Phase().Error? then "" else "<")
    else FlushStartTail(r.(startTail := tail))
  }

  function DetectorByte(r: Router, c: char): (q: Router)
    requires r.Valid()
    ensures q.Valid() && q.pending == r.pending && q.vocab == r.vocab
  {
    var tail := if |r.startTail| < START_TAIL then r.startTail + [c] else r.startTail;
    match MatchForm(r.vocab.forms, tail)
    case Some(form) =>
      if |form.text| == |tail| then StartBlock(r, form.implicitInvoke) else r.(startTail := tail)
    case None => Unmatched(r, tail)
  }

  /** agent_stream_normal_byte */
  function NormalByte(r: Router, c: char): (q: Router)
    requires r.Valid()
    ensures q.Valid() && q.pending == r.pending && q.vocab == r.vocab
  {
    if r.tool.Phase().Error? then r
    else
      var n := NoteThinking(r, c);
      if n.postThinkGap && IsSpace(c) then n
      else if n.startTail != "" || c == '<' then DetectorByte(n, c)
      else Show(n.(postThinkGap := false), c)
  }

  function OpenThink(r: Router): (q: Router)
    requires r.Valid()
    ensures q.Valid() && q.pending == r.pending && q.vocab == r.vocab
  {
    FlushStartTail(r).(postThinkGap := false, inThink := true)
  }

  function CloseThink(r: Router): (q: Router)
    requires r.Valid()
    ensures q.Valid() && q.pending == r.pending && q.vocab == r.vocab
  {
    FlushStartTail(r).(postThinkGap := true, inThink := false)
  }

  /** One byte that is not part of a think tag. */
  function PlainByte(r: Router, c: char): (q: Router)
    requires r.Valid()
    ensures q.Valid() && q.pending == r.pending && q.vocab == r.vocab
  {
    if r.active then BlockByte(r, c) else NormalByte(r, c)
  }

  /** One pass of the byte loop: hold the rest back, or consume `n` bytes. */
  datatype Move = Hold | Eat(n: nat, q: Router)

  function NextMove(r: Router, buf: string, finish: bool): (m: Move)
    requires r.Valid() && buf != ""
    ensures m.Eat? ==> 0 < m.n <= |buf|
    ensures m.Eat? ==> m.q.Valid() && m.q.pending == r.pending && m.q.vocab == r.vocab
  {
    var v := r.vocab;
    if !r.active && v.think.open <= buf then Eat(|v.think.open|, OpenThink(r))
    else if !r.active && v.think.close <= buf then Eat(|v.think.close|, CloseThink(r))
    else if !finish && !r.active && HoldBack(v.think, buf) then Hold
    else Eat(1, PlainByte(r, buf[0]))
  }

  /** The byte loop of agent_stream_text. */
  function Run(r: Router, buf: string, finish: bool): (q: Router)
    requires r.Valid()
    ensures q.Valid() && q.vocab == r.vocab
    decreases |buf|
  {
    if buf == "" then r
    else
      match NextMove(r, buf, finish)
      case Hold => r.(pending := buf)
      case Eat(n, q) => Run(q, buf[n..], finish)
  }

  /** agent_stream_text(sr, text, len, false) */
  function Text(r: Router, s: string): (q: Router)
    requires r.Valid()
    ensures q.Valid() && q.vocab == r.vocab
  {
    Run(r.(pending := ""), r.pending + s, false)
  }

  function Texts(r: Router, chunks: seq<string>): (q: Router)
    requires r.Valid()
    ensures q.Valid() && q.vocab == r.vocab
    decreases |chunks|
  {
    if chunks == [] then r else Texts(Text(r, chunks[0]), chunks[1..])
  }

  /** The end of an assistant message, every held byte already resolved. */
  function Settle(r: Router): (q: Router)
    requires r.Valid()
    ensures q.Valid() && q.vocab == r.vocab
  {
    var a := FlushStartTail(r).(postThinkGap := false);
    var b := if a.active then a.(tool := a.tool.Finish()) else a;
    var c := if b.active then LeaveBlock(b) else b;
    if c.dsmlInThink && !c.reported then FinishIgnored(c) else c
  }

  /** agent_stream_text(sr, NULL, 0, true) */
  function FinishText(r: Router): (q: Router)
    requires r.Valid()
    ensures q.Valid() && q.vocab == r.vocab
  {
    Settle(Run(r.(pending := ""), r.pending, true))
  }

  /** The router of a new assistant message. */
  function NewRouter(v: Vocab, tool: Tool, inThink: bool): (r: Router)
    requires tool.Valid() && v.Shape()
    ensures r.Valid()
  {
    Router(v, tool.Reset(), inThink, false, false, "", "", "", "", false, false, false, "", [], "")
  }

  // ------------------------------------------------------------------------------------
  // How the text was cut does not matter
  // ------------------------------------------------------------------------------------

  lemma MoveAlike(r: Router, a: string, b: string, finish: bool)
    requires r.Valid() && a != "" && NextMove(r, a, false).Eat?
    ensures NextMove(r, a + b, finish) == NextMove(r, a, false)
  {
    hide OpenThink, CloseThink, PlainByte, HoldBack;
    DecidedAlike(r.vocab.think, a, b);
    assert (a + b)[0] == a[0];
  }

  /** Resuming with the held bytes in front is processing the uncut text. */
  lemma {:induction false} RunSplit(r: Router, a: string, b: string, finish: bool)
    requires r.Valid() && r.pending == ""
    ensures var q := Run(r, a, false);
            Run(q.(pending := ""), q.pending + b, finish) == Run(r, a + b, finish)
    decreases |a|
  {
    hide NextMove, Router.Valid;
    if a == "" {
      assert r.(pending := "") == r;
      assert r.pending + b == a + b;
    } else {
      match NextMove(r, a, false)
      case Hold =>
        assert r.(pending := a).(pending := "") == r;
      case Eat(n, q) =>
        MoveAlike(r, a, b, finish);
        assert (a + b)[n..] == a[n..] + b;
        RunSplit(q, a[n..], b, finish);
    }
  }

  lemma TextSplit(r: Router, a: string, b: string)
    requires r.Valid()
    ensures Text(Text(r, a), b) == Text(r, a + b)
  {
    hide Run;
    RunSplit(r.(pending := ""), r.pending + a, b, false);
    assert (r.pending + a) + b == r.pending + (a + b);
  }

  lemma RunEmpty(r: Router)
    requires r.Valid() && r.pending == ""
    ensures Text(r, "") == r
  {
    assert r.(pending := "") == r && r.pending + "" == "";
  }

  lemma {:induction false} TextsConcat(r: Router, chunks: seq<string>)
    requires r.Valid()
    ensures chunks != [] ==> Texts(r, chunks) == Text(r, Concat(chunks))
    decreases |chunks|
  {
    hide Run;
    if |chunks| == 1 {
      assert Concat(chunks) == chunks[0] + Concat(chunks[1..]) == chunks[0];
    } else if chunks != [] {
      TextsConcat(Text(r, chunks[0]), chunks[1..]);
      TextSplit(r, chunks[0], Concat(chunks[1..]));
    }
  }

  /** A whole message in one call, the reference for every way of streaming it. */
  function OneShot(r: Router, text: string): Router
    requires r.Valid()
  {
    Settle(Run(r, text, true))
  }

  /**
   Parser, calls, think flag, detectors and shown bytes depend only on the message, not
   on the chunks it arrived in.
   */
  lemma StreamIsOneShot(r: Router, chunks: seq<string>)
    requires r.Valid() && r.pending == ""
    ensures FinishText(Texts(r, chunks)) == OneShot(r, Concat(chunks))
  {
    hide Run, Settle;
    var text := Concat(chunks);
    if chunks == [] {
      assert r.(pending := "") == r;
    } else {
      TextsConcat(r, chunks);
      RunSplit(r, text, "", true);
      assert r.(pending := "") == r;
      assert r.pending + text == text && text + "" == text;
      var q := Run(r, text, false);
      assert q.pending + "" == q.pending;
    }
  }

  // ------------------------------------------------------------------------------------
  // Tools run only from blocks opened outside thinking
  // ------------------------------------------------------------------------------------

  ghost predicate NoMarker(s: string, markers: seq<string>) {
    forall k, i :: 0 <= k < |markers| ==> !OccursAt(s, i, markers[k])
  }

  /** What every byte keeps. */
  ghost predicate Safe(r: Router) {
    && r.Valid()
    // a block opened while thinking is remembered for the rest of the message
    && ((exists k :: 0 <= k < |r.opens| && r.opens[k]) ==> r.dsmlInThink)
    && (r.active && r.ignored ==> r.dsmlInThink)
    && (r.active && !r.ignored ==> !r.inThink)
    && (r.ignored ==> r.active)
    // calls come from blocks
    && (r.opens == [] ==> r.tool.Calls() == [] && !r.active)
    // the detector of thinking bytes has missed nothing
    && r.thinkTail == LastN(r.thought, DETECTOR)
    && (!r.dsmlInThink ==> NoMarker(r.thought, r.vocab.markers))
  }

  lemma NoMarkerPrefix(s: string, n: nat, markers: seq<string>)
    requires n <= |s| && NoMarker(s, markers)
    ensures NoMarker(s[..n], markers)
  {
    hide OccursAt;
    forall k, i | 0 <= k < |markers| ensures !OccursAt(s[..n], i, markers[k]) {
      assert Free(s, markers[k]);
      FreePrefix(s, n, markers[k]);
    }
  }

  lemma WindowPush(s: string, c: char)
    ensures Window(LastN(s, DETECTOR), c) == LastN(s + [c], DETECTOR)
  {
  }

  /** What a text spells after one more byte it spelled before, or spells at its end. */
  lemma SpelledLast(s: string, c: char, i: int, m: string)
    requires !OccursAt(s, i, m) && !OccursAt(s + [c], |s + [c]| - |m|, m)
    ensures !OccursAt(s + [c], i, m)
  {
    OccursAtExtend(s, [c], i, m);
  }

  /** A marker completed by the last byte is seen in the window. */
  lemma WindowSees(s: string, c: char, markers: seq<string>)
    requires forall k :: 0 <= k < |markers| ==> 0 < |markers[k]| <= DETECTOR
    requires NoMarker(s, markers) && !EndsInMarker(LastN(s + [c], DETECTOR), markers)
    ensures NoMarker(s + [c], markers)
  {
    hide OccursAt, LastN;
    forall k, i | 0 <= k < |markers| ensures !OccursAt(s + [c], i, markers[k]) {
      LastNEnds(s + [c], DETECTOR, markers[k]);
      SpelledLast(s, c, i, markers[k]);
    }
  }

  lemma NoteThinkingSafe(r: Router, c: char)
    requires Safe(r)
    ensures Safe(NoteThinking(r, c))
    ensures r.active == NoteThinking(r, c).active
  {
    hide Tool.Valid, Tool.Calls;
    if r.inThink && !r.dsmlInThink {
      WindowPush(r.thought, c);
      if !EndsInMarker(Window(r.thinkTail, c), r.vocab.markers) {
        WindowSees(r.thought, c, r.vocab.markers);
      }
    }
  }

  /** The parts of a router that plain text never touches. */
  ghost predicate SameSafety(q: Router, r: Router) {
    && q.Valid() && q.vocab == r.vocab && q.tool.Calls() == r.tool.Calls()
    && q.inThink == r.inThink && q.active == r.active && q.ignored == r.ignored
    && q.dsmlInThink == r.dsmlInThink && q.opens == r.opens
    && q.thinkTail == r.thinkTail && q.thought == r.thought
  }

  lemma KeepsSafe(q: Router, r: Router)
    requires Safe(r) && SameSafety(q, r)
    ensures Safe(q)
  {
  }

  lemma {:induction false} ShowAllSame(r: Router, s: string)
    requires r.Valid()
    ensures SameSafety(ShowAll(r, s), r)
    decreases |s|
  {
    hide Tool.Valid, Vocab.Shape;
    if s != "" {
      ShowSame(r, s[0]);
      var q := Show(r, s[0]);
      if !q.tool.Phase().Error? {
        ShowAllSame(q, s[1..]);
      }
    }
  }

  lemma ShowSame(r: Router, c: char)
    requires r.Valid()
    ensures SameSafety(Show(r, c), r)
  {
    hide Tool.Malformed, Tool.Valid, Tool.Calls, Tool.Phase, EndsInMarker, Window, Vocab.Shape;
  }

  lemma FlushSame(r: Router)
    requires r.Valid()
    ensures SameSafety(FlushStartTail(r), r)
  {
    hide ShowAll, Tool.Valid, Vocab.Shape;
    if r.startTail != "" {
      ShowAllSame(r.(postThinkGap := false), r.startTail);
    }
  }

  /** Inside a block, or just past the end of one. */
  ghost predicate InBlock(r: Router) {
    Safe(r) && r.opens != [] && (r.active || !r.tool.Live())
  }

  lemma LeaveBlockSafe(r: Router)
    requires Safe(r) && r.opens != [] && !r.tool.Live()
    ensures InBlock(LeaveBlock(r))
  {
    hide Tool.Valid;
  }

  lemma BlockByteSafe(r: Router, c: char)
    requires InBlock(r)
    ensures InBlock(BlockByte(r, c))
  {
    hide Tool.FeedByte, Tool.Valid, LeaveBlock, Tool.Calls;
    var q := r.(tool := r.tool.FeedByte(c));
    if r.active {
      assert Safe(q);
      if !q.tool.Live() {
        LeaveBlockSafe(q);
      }
    } else {
      FeedOutside(r.tool, c);
      assert q == r;
      LeaveBlockSafe(r);
    }
  }

  lemma FeedOutside(t: Tool, c: char)
    requires t.Valid() && !t.Live()
    ensures t.FeedByte(c) == t
  {
  }

  lemma {:induction false} BlockBytesSafe(r: Router, s: string)
    requires InBlock(r)
    ensures InBlock(BlockBytes(r, s))
    decreases |s|
  {
    hide BlockByte, InBlock;
    if s != "" {
      assert r.Valid() by { InBlockValid(r); }
      BlockByteSafe(r, s[0]);
      InBlockValid(BlockByte(r, s[0]));
      BlockBytesSafe(BlockByte(r, s[0]), s[1..]);
    }
  }

  lemma InBlockValid(r: Router)
    requires InBlock(r)
    ensures r.Valid()
  {
  }

  lemma OpensPush(opens: seq<bool>, b: bool)
    ensures (exists k :: 0 <= k < |opens + [b]| && (opens + [b])[k])
            ==> b || exists k :: 0 <= k < |opens| && opens[k]
  {
    if k :| 0 <= k < |opens + [b]| && (opens + [b])[k] {
      if k < |opens| {
        assert opens[k];
      }
    }
  }

  lemma StartBlockSafe(r: Router, implicitInvoke: bool)
    requires Safe(r) && !r.active
    ensures Safe(StartBlock(r, implicitInvoke))
  {
    hide BlockBytes, Tool.Valid, Tool.Calls;
    var q := r.(active := true, ignored := r.inThink, dsmlInThink := r.dsmlInThink || r.inThink,
                startTail := "", postThinkGap := false, tool := r.tool.Start(),
                opens := r.opens + [r.inThink]);
    OpensPush(r.opens, r.inThink);
    assert Safe(q);
    if q.tool.Dsml? && implicitInvoke {
      BlockBytesSafe(q, r.vocab.invoke);
    }
  }

  lemma UnmatchedSame(r: Router, tail: string)
    requires r.Valid() && tail != ""
    ensures SameSafety(Unmatched(r, tail), r)
  {
    hide ShowAll, FlushStartTail, Tool.Valid, Vocab.Shape;
    var last := |tail| - 1;
    if last > 0 && tail[last] == '<' {
      ShowAllSame(r.(postThinkGap := false), tail[..last]);
    } else {
      FlushSame(r.(startTail := tail));
    }
  }

  lemma DetectorByteSafe(r: Router, c: char)
    requires Safe(r) && !r.active
    ensures Safe(DetectorByte(r, c))
  {
    hide MatchForm, StartBlock, Unmatched, Safe, SameSafety;
    var tail := if |r.startTail| < START_TAIL then r.startTail + [c] else r.startTail;
    assert r.Valid() by { SafeValid(r); }
    match MatchForm(r.vocab.forms, tail)
    case Some(form) =>
      if |form.text| == |tail| {
        StartBlockSafe(r, form.implicitInvoke);
      } else {
        SafeHold(r, tail, r.postThinkGap);
      }
    case None =>
      UnmatchedSame(r, tail);
      KeepsSafe(Unmatched(r, tail), r);
  }

  lemma SafeValid(r: Router)
    requires Safe(r)
    ensures r.Valid()
  {
  }

  lemma SafeHold(r: Router, tail: string, gap: bool)
    requires Safe(r)
    ensures Safe(r.(startTail := tail)) && Safe(r.(postThinkGap := gap))
  {
  }

  lemma NormalByteSafe(r: Router, c: char)
    requires Safe(r) && !r.active
    ensures Safe(NormalByte(r, c))
  {
    hide NoteThinking, DetectorByte, Show, Safe, SameSafety;
    SafeValid(r);
    NoteThinkingSafe(r, c);
    var n := NoteThinking(r, c);
    DetectorByteSafe(n, c);
    SafeHold(n, "", false);
    var m := n.(postThinkGap := false);
    ShowSame(m, c);
    KeepsSafe(Show(m, c), m);
  }

  lemma PlainByteSafe(r: Router, c: char)
    requires Safe(r)
    ensures Safe(PlainByte(r, c))
  {
    hide BlockByte, NormalByte;
    if r.active {
      BlockByteSafe(r, c);
    } else {
      NormalByteSafe(r, c);
    }
  }

  lemma ThinkTagSafe(r: Router)
    requires Safe(r) && !r.active
    ensures Safe(OpenThink(r)) && Safe(CloseThink(r))
  {
    hide FlushStartTail;
    FlushSame(r);
  }

  lemma MoveSafe(r: Router, buf: string, finish: bool)
    requires Safe(r) && buf != "" && NextMove(r, buf, finish).Eat?
    ensures Safe(NextMove(r, buf, finish).q)
  {
    hide OpenThink, CloseThink, PlainByte, HoldBack, Safe;
    SafeValid(r);
    if !r.active {
      ThinkTagSafe(r);
    }
    PlainByteSafe(r, buf[0]);
  }

  lemma {:induction false} RunSafe(r: Router, buf: string, finish: bool)
    requires Safe(r)
    ensures Safe(Run(r, buf, finish))
    decreases |buf|
  {
    hide NextMove, Safe;
    SafeValid(r);
    if buf != "" {
      match NextMove(r, buf, finish)
      case Hold => SafePending(r, buf);
      case Eat(n, q) =>
        MoveSafe(r, buf, finish);
        RunSafe(q, buf[n..], finish);
    }
  }

  lemma SafePending(r: Router, s: string)
    requires Safe(r)
    ensures Safe(r.(pending := s))
  {
  }

  lemma SettleSafe(r: Router)
    requires Safe(r)
    ensures Safe(Settle(r))
  {
    hide FlushStartTail, Tool.Finish, Tool.Valid, Tool.Calls;
    FlushSame(r);
    var a := FlushStartTail(r).(postThinkGap := false);
    KeepsSafe(a, r);
    var b := if a.active then a.(tool := a.tool.Finish()) else a;
    assert Safe(b);
    var c := if b.active then LeaveBlock(b) else b;
    assert Safe(c);
  }

  /** worker_run_turn's verdict on a finished assistant message. */
  datatype Verdict = Stopped | Answer | PreflightError | MalformedTool | Execute(calls: seq<Call>)

  /**
   The flags are those the decode loop leaves: a parser seen DONE, a parser seen failed,
   a failed preflight of an edit, an interrupt by the user.
   */
  function Decide(r: Router, gotTool: bool, malformed: bool, preflight: bool, interrupted: bool): Verdict {
    var got := gotTool || (r.tool.Phase().Done? && r.tool.Calls() != []);
    var bad := r.dsmlInThink || malformed || r.tool.Phase().Error?
               || (!got && !preflight && r.tool.Live());
    if interrupted then Stopped
    else if preflight && !r.dsmlInThink then PreflightError
    else if bad then MalformedTool
    else if got then Execute(r.tool.Calls())
    else Answer
  }

  /**
   For every message and every way of streaming it, whatever the loop's flags: tools are
   executed only if every recognised block was opened outside thinking and the thinking
   spelled no DSML marker, and then exactly the parsed calls are executed.
   */
  lemma ToolsOnlyOutsideThinking(v: Vocab, tool: Tool, inThink: bool, chunks: seq<string>,
                                 gotTool: bool, malformed: bool, preflight: bool, interrupted: bool)
    requires tool.Valid() && v.Shape()
    ensures var r := FinishText(Texts(NewRouter(v, tool, inThink), chunks));
            var verdict := Decide(r, gotTool, malformed, preflight, interrupted);
            verdict.Execute? ==>
              && verdict.calls == r.tool.Calls()
              && (verdict.calls != [] ==> r.opens != [])
              && (forall k :: 0 <= k < |r.opens| ==> !r.opens[k])
              && NoMarker(r.thought, v.markers)
  {
    hide Run, Settle, Tool.Reset, Safe;
    var r0 := NewRouter(v, tool, inThink);
    StreamIsOneShot(r0, chunks);
    NewRouterSafe(v, tool, inThink);
    var text := Concat(chunks);
    RunSafe(r0, text, true);
    SettleSafe(Run(r0, text, true));
    SafeMeans(OneShot(r0, text));
  }

  lemma SafeMeans(r: Router)
    requires Safe(r)
    ensures r.opens == [] ==> r.tool.Calls() == []
    ensures !r.dsmlInThink ==> NoMarker(r.thought, r.vocab.markers)
    ensures !r.dsmlInThink ==> forall k :: 0 <= k < |r.opens| ==> !r.opens[k]
  {
  }

  lemma NewRouterSafe(v: Vocab, tool: Tool, inThink: bool)
    requires tool.Valid() && v.Shape()
    ensures Safe(NewRouter(v, tool, inThink))
  {
    hide Tool.Reset, Tool.Valid;
    forall k, i | 0 <= k < |v.markers| ensures !OccursAt("", i, v.markers[k]) {
      assert |v.markers[k]| > 0;
    }
  }

  // ------------------------------------------------------------------------------------
  // The agent's vocabularies
  // ------------------------------------------------------------------------------------

  const DSML_MARKERS := [
    "\U{EF}\U{BD}\U{9C}DSML\U{EF}\U{BD}\U{9C}", "|DSML|",
    "<DSML\U{EF}\U{BD}\U{9C}", "</DSML\U{EF}\U{BD}\U{9C}"]

  const DSML_FORMS := [
    Form("<\U{EF}\U{BD}\U{9C}DSML\U{EF}\U{BD}\U{9C}tool_calls>", false),
    Form("<DSML\U{EF}\U{BD}\U{9C}tool_calls>", false),
    Form("<\U{EF}\U{BD}\U{9C}DSML\U{EF}\U{BD}\U{9C}invoke", true),
    Form("<DSML\U{EF}\U{BD}\U{9C}invoke", true)]

  const DSML_VOCAB := Vocab(THINK, DSML_FORMS,
                            "<\U{EF}\U{BD}\U{9C}DSML\U{EF}\U{BD}\U{9C}invoke", DSML_MARKERS)

  const GLM_VOCAB := Vocab(THINK, [Form("<tool_call>", false)], "", DSML_MARKERS)

  lemma AgentVocabularies()
    ensures DSML_VOCAB.Shape() && GLM_VOCAB.Shape()
  {
    ThinkShape();
  }
}
