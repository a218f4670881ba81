/**
 One assistant message: the decode loop with the agent's own stream router behind it.

 The loop commits tokens out of speculative blocks, forced lines and rewinds; the router
 reads their text piece by piece.  The theorem says that none of this shows: every sampling
 mode and the final decision are functions of the text that ended up in the transcript.
 */
module AssistantMessage {
  import opened Strings
  import opened ToolCalls
  import opened AgentSession
  import opened ThinkTags
  import R = StreamRouter
  import Q = RouterProse
  import L = DecodeLoop
  import E = LoopExits
  import P = ParserObject
  import G = GlmParser
  import GR = GlmRoundTrip
  import D = ToolParser
  import DR = DsmlRoundTrip
  import M = ToolMessage

  /** The bytes since the last '<' of a GLM value may still become its close tag. */
  ghost predicate GlmClosePrefix(p: G.Glm) {
    && p.phase.ParamValue?
    && exists lt: nat :: p.parsePos <= lt < |p.raw| && p.raw[lt] == '<'
        && (forall k :: lt < k < |p.raw| ==> p.raw[k] != '<')
        && G.Partial(p.raw, lt, p.tags.valueClose)
  }

  ghost predicate ClosePrefix(t: R.Tool) {
    match t
    case Dsml(d) => P.ClosePrefix(d)
    case Glm(g) => GlmClosePrefix(g)
  }

  /** agent_stream_wants_greedy_sampling */
  ghost predicate WantsGreedy(r: R.Router) {
    if r.tool.Phase().Error? || r.tool.Phase().Done? then false
    else if |r.startTail| > 1 then true
    else if !r.active then false
    else if r.tool.Phase().Structural? then true
    else ClosePrefix(r.tool)
  }

  /** What the loop concludes after a token; `preflight` is the check of an edit's selector. */
  ghost function Conclude(r: R.Router, preflight: bool): L.Verdict {
    if r.tool.Phase().Done? then L.ToolDone
    else if preflight then L.PreflightError
    else if r.tool.Phase().Error? || r.dsmlInThink then L.Malformed
    else L.Continue
  }

  /** What the engine and the configuration decide. */
  datatype Setup = Setup(
    maxTokens: int,
    isStop: int -> bool,
    piece: int -> string,         // ds4_token_text
    preflight: R.Router -> bool,
    upto: seq<int>,
    backend: Backend)

  /** The decode loop's environment with the router as its stream. */
  ghost function Environment(u: Setup): L.Env<R.Router> {
    L.Env(u.maxTokens, u.isStop,
          (r: R.Router, token: int) => if r.Valid() then R.Text(r, u.piece(token)) else r,
          (r: R.Router) => WantsGreedy(r),
          (r: R.Router) => Conclude(r, u.preflight(r)),
          u.upto, u.backend)
  }

  /** The text of a run of tokens. */
  function Spelled(piece: int -> string, toks: seq<int>): string {
    if toks == [] then "" else Spelled(piece, toks[..|toks| - 1]) + piece(toks[|toks| - 1])
  }

  /** Token by token, the router gets to where the text takes it. */
  lemma {:induction false} AfterIsText(u: Setup, r: R.Router, toks: seq<int>)
    requires r.Valid() && r.pending == ""
    ensures L.After(Environment(u), r, toks) == R.Text(r, Spelled(u.piece, toks))
    decreases |toks|
  {
    hide R.Text, WantsGreedy, Conclude, R.Router.Valid;
    if toks == [] {
      R.RunEmpty(r);
    } else {
      var init, token := toks[..|toks| - 1], toks[|toks| - 1];
      AfterIsText(u, r, init);
      R.TextSplit(r, Spelled(u.piece, init), u.piece(token));
    }
  }

  lemma FinishedText(r: R.Router, text: string)
    requires r.Valid() && r.pending == ""
    ensures R.FinishText(R.Text(r, text)) == R.OneShot(r, text)
  {
    hide R.Run, R.Settle;
    R.StreamIsOneShot(r, [text]);
    assert Concat([text]) == text + Concat([]) == text;
    assert R.Texts(r, [text]) == R.Texts(R.Text(r, text), []);
  }

  /** The loop's turn at the start of a message. */
  function Begin(session: Session, transcript: seq<int>, r: R.Router): L.Turn<R.Router> {
    L.Turn(session, transcript, 0, r, [], 0)
  }

  /** What a turn made of a message whose transcript began with `base`. */
  ghost predicate FollowsText(u: Setup, r: R.Router, base: seq<int>, t: L.Turn<R.Router>)
    requires r.Valid()
  {
    && base <= t.transcript && |t.origins| == |t.transcript| - |base|
    && var toks := t.transcript[|base|..];
       && R.FinishText(R.Text(r, Spelled(u.piece, toks))) == R.OneShot(r, Spelled(u.piece, toks))
       && t.stream == R.Text(r, Spelled(u.piece, toks))
       && forall i :: 0 <= i < |toks| && t.origins[i].Sampled? ==>
            t.origins[i].greedy == WantsGreedy(R.Text(r, Spelled(u.piece, toks[..i])))
  }

  lemma InModeFollows(u: Setup, r: R.Router, base: seq<int>, t: L.Turn<R.Router>)
    requires r.Valid() && r.pending == "" && L.InMode(Environment(u), r, base, t)
    ensures FollowsText(u, r, base, t)
  {
    hide R.Text, WantsGreedy, R.Router.Valid, L.After, R.FinishText, R.OneShot;
    var toks := t.transcript[|base|..];
    AfterIsText(u, r, toks);
    FinishedText(r, Spelled(u.piece, toks));
    forall i | 0 <= i < |toks| && t.origins[i].Sampled?
      ensures t.origins[i].greedy == WantsGreedy(R.Text(r, Spelled(u.piece, toks[..i])))
    {
      AfterIsText(u, r, toks[..i]);
      assert t.origins[i].greedy == Environment(u).greedy(L.After(Environment(u), r, L.Gen(base, t)[..i]));
    }
  }

  /**
   Over every run of the loop, however blocks, rewinds and forced lines interleave: the
   router stands where one pass over the committed text would put it, and each sampled
   token was produced under the mode demanded by the text committed before it.
   */
  lemma MessageFollowsText(u: Setup, r: R.Router, session: Session, base: seq<int>, passes: seq<L.Pass>)
    requires r.Valid() && r.pending == ""
    ensures FollowsText(u, r, base, L.Run(Environment(u), Begin(session, base, r), passes).turn)
  {
    hide L.Run, FollowsText;
    var t := Begin(session, base, r);
    assert L.InMode(Environment(u), r, base, t) by {
      assert L.Gen(base, t) == [];
    }
    L.CommittedInMode(Environment(u), r, base, t, passes);
    InModeFollows(u, r, base, L.Run(Environment(u), t, passes).turn);
  }

  /** The message went on only behind texts that conclude nothing; forced tokens are not looked at. */
  ghost predicate GoesOn(u: Setup, r: R.Router, base: seq<int>, t: L.Turn<R.Router>)
    requires r.Valid()
  {
    && base <= t.transcript && |t.origins| == |t.transcript| - |base|
    && var toks := t.transcript[|base|..];
       forall i :: 0 <= i < |toks| - 1 && t.origins[i].Sampled? ==>
         var q := R.Text(r, Spelled(u.piece, toks[..i + 1]));
         Conclude(q, u.preflight(q)) == L.Continue
  }

  /**
   Over every run: nothing is committed behind a text that finishes a tool call, fails the
   preflight of an edit or is malformed.
   */
  lemma MessageStops(u: Setup, r: R.Router, session: Session, base: seq<int>, passes: seq<L.Pass>)
    requires r.Valid() && r.pending == ""
    ensures GoesOn(u, r, base, L.Run(Environment(u), Begin(session, base, r), passes).turn)
  {
    hide L.Run, R.Text, Conclude, WantsGreedy, R.Router.Valid;
    var env := Environment(u);
    var t := Begin(session, base, r);
    E.FreshStopped(env, t);
    E.RunStopped(env, r, base, t, passes);
    var end := L.Run(env, t, passes).turn;
    var toks := end.transcript[|base|..];
    forall i | 0 <= i < |toks| - 1 && end.origins[i].Sampled?
      ensures var q := R.Text(r, Spelled(u.piece, toks[..i + 1])); Conclude(q, u.preflight(q)) == L.Continue
    {
      AfterIsText(u, r, toks[..i + 1]);
      assert E.Since(base, end)[..i + 1] == toks[..i + 1];
      assert env.verdict(L.After(env, r, toks[..i + 1])) == L.Continue;
    }
  }

  /** The turn after a run of the loop on a new message. */
  ghost function Turn(u: Setup, r: R.Router, session: Session, base: seq<int>, passes: seq<L.Pass>): L.Turn<R.Router> {
    L.Run(Environment(u), Begin(session, base, r), passes).turn
  }

  /** The text that the run committed. */
  ghost function Committed(u: Setup, base: seq<int>, t: L.Turn<R.Router>): string {
    if |base| <= |t.transcript| then Spelled(u.piece, t.transcript[|base|..]) else ""
  }

  /** What worker_run_turn decides after the loop. */
  ghost function Decision(u: Setup, r: R.Router, stopped: bool): R.Verdict
    requires r.Valid()
  {
    var seen := Conclude(r, u.preflight(r));
    R.Decide(R.FinishText(r), seen.ToolDone?, seen.Malformed?, seen.PreflightError?, stopped)
  }

  /**
   The decision after the message: what is executed is what one parse of the committed
   text yields, and only when no tool block opened and no marker was spelled in thinking.
   */
  lemma ExecutesCommittedText(u: Setup, v: R.Vocab, tool: R.Tool, inThink: bool, session: Session,
                              base: seq<int>, passes: seq<L.Pass>, stopped: bool)
    requires tool.Valid() && v.Shape()
    ensures var r := R.NewRouter(v, tool, inThink);
            var t := Turn(u, r, session, base, passes);
            var whole := R.OneShot(r, Committed(u, base, t));
            t.stream.Valid() &&
            var verdict := Decision(u, t.stream, stopped);
            verdict.Execute? ==>
              && verdict.calls == whole.tool.Calls()
              && (verdict.calls != [] ==> whole.opens != [])
              && (forall k :: 0 <= k < |whole.opens| ==> !whole.opens[k])
              && R.NoMarker(whole.thought, v.markers)
  {
    hide R.Text, R.Run, R.Settle, R.FinishText, R.OneShot, L.Run, R.NewRouter, WantsGreedy, R.NoMarker;
    var r := R.NewRouter(v, tool, inThink);
    assert r.pending == "" by { NewPending(v, tool, inThink); }
    MessageFollowsText(u, r, session, base, passes);
    var t := L.Run(Environment(u), Begin(session, base, r), passes).turn;
    var text := Spelled(u.piece, t.transcript[|base|..]);
    var seen := Conclude(t.stream, u.preflight(t.stream));
    R.ToolsOnlyOutsideThinking(v, tool, inThink, [text], seen.ToolDone?, seen.Malformed?,
                               seen.PreflightError?, stopped);
    R.StreamIsOneShot(r, [text]);
    assert Concat([text]) == text + Concat([]) == text;
  }

  lemma NewPending(v: R.Vocab, tool: R.Tool, inThink: bool)
    requires tool.Valid() && v.Shape()
    ensures R.NewRouter(v, tool, inThink).pending == ""
  {
  }

  // ------------------------------------------------------------------------------------
  // A well-formed message is executed
  // ------------------------------------------------------------------------------------

  lemma StreamOf(u: Setup, r: R.Router, session: Session, base: seq<int>, passes: seq<L.Pass>)
    requires r.Valid() && r.pending == ""
    ensures var t := Turn(u, r, session, base, passes);
            && t.stream.Valid() && t.stream == R.Run(r, Committed(u, base, t), false)
            && R.FinishText(t.stream) == R.FinishText(R.Texts(r, [Committed(u, base, t)]))
  {
    hide L.Run, R.Run, R.FinishText, WantsGreedy, R.Router.Valid;
    MessageFollowsText(u, r, session, base, passes);
    var t := Turn(u, r, session, base, passes);
    var text := Committed(u, base, t);
    assert r.(pending := "") == r && r.pending + text == text;
    assert R.Texts(r, [text]) == R.Texts(R.Text(r, text), []) == R.Text(r, text);
  }

  /**
   Whenever the committed text is a lead and a printed DSML stanza, opened by any of the
   start forms, however the loop came to it, exactly the printed calls are executed.
   */
  lemma ExecutesPrintedDsml(u: Setup, v: R.Vocab, t: D.Tags, lead: M.Lead, form: R.Form, gap: string, calls: seq<Call>,
                           after: string, rest: string, session: Session, base: seq<int>, passes: seq<L.Pass>)
    requires M.Belongs(v, t) && lead.Proper(v) && form in v.forms && Spaces(gap) && Spaces(after)
    requires forall k :: 0 <= k < |calls| ==> DR.PrintableCall(t, calls[k])
    requires M.Implied(t, form) + rest == DR.Body(t, gap, calls) + after
    requires R.Dsml(D.Fresh(t)).Valid()
    requires var turn := Turn(u, R.NewRouter(v, R.Dsml(D.Fresh(t)), lead.Thought?), session, base, passes);
             Committed(u, base, turn) == lead.Text(v) + (form.text + rest)
    ensures var turn := Turn(u, R.NewRouter(v, R.Dsml(D.Fresh(t)), lead.Thought?), session, base, passes);
            turn.stream.Valid() && Decision(u, turn.stream, false) == R.Execute(calls)
  {
    hide L.Run, R.Run, R.FinishText, R.Texts, R.NewRouter, DR.Vocabulary, DR.PrintableCall, DR.Body, Turn, Committed,
         D.Tags.Shape, R.Decide, M.Belongs, M.Lead.Text, M.Lead.Shown, M.Lead.Proper, M.Implied, D.Parse, M.Finished;
    var tool := R.Dsml(D.Fresh(t));
    BelongsShape(v, t);
    var r := R.NewRouter(v, tool, lead.Thought?);
    NewPending(v, tool, lead.Thought?);
    StreamOf(u, r, session, base, passes);
    var text := lead.Text(v) + (form.text + rest);
    M.PrintedDone(t, form, gap, calls, after, rest);
    var q := M.DsmlRun(v, t, lead, form, rest, false);
    FinishedDone(q, v, calls, lead.Shown());
    assert Concat([text]) == text + Concat([]) == text;
    M.DsmlMessageExecutes(v, t, lead, form, gap, calls, after, rest, [text], true);
  }

  lemma BelongsShape(v: R.Vocab, t: D.Tags)
    requires M.Belongs(v, t)
    ensures v.Shape() && t.Shape() && DR.Vocabulary(t) && R.Dsml(D.Fresh(t)).Valid()
  {
    hide DR.Vocabulary, D.Tags.Shape;
    M.StartDsml(t);
  }

  lemma FinishedDone(r: R.Router, v: R.Vocab, calls: seq<Call>, shown: string)
    requires M.Finished(r, v, calls, shown)
    ensures r.tool.Phase().Done?
  {
  }

  /** The same for GLM, for calls that show no end of the call in a key or a value. */
  lemma ExecutesPrintedGlm(u: Setup, v: R.Vocab, t: G.GlmTags, lead: M.Lead, form: R.Form, calls: seq<Call>,
                           after: string, session: Session, base: seq<int>, passes: seq<L.Pass>)
    requires t.Shape() && Q.Speaks(v) && lead.Proper(v) && form in v.forms && Spaces(after)
    requires calls != [] && GR.PrintableCalls(t, calls) && GR.PlainCalls(t, calls)
    requires R.Glm(M.FreshGlm(t)).Valid()
    requires var turn := Turn(u, R.NewRouter(v, R.Glm(M.FreshGlm(t)), lead.Thought?), session, base, passes);
             && Committed(u, base, turn) == lead.Text(v) + (form.text + GR.Stanza(t, calls, after))
             && !u.preflight(turn.stream)
    ensures var turn := Turn(u, R.NewRouter(v, R.Glm(M.FreshGlm(t)), lead.Thought?), session, base, passes);
            turn.stream.Valid() && Decision(u, turn.stream, false) == R.Execute(calls)
  {
    hide L.Run, R.Run, R.FinishText, R.Texts, R.NewRouter, GR.PrintableCalls, GR.PlainCalls, GR.Stanza, Turn, Committed,
         G.GlmTags.Shape, R.Decide, M.FreshGlm, Q.Speaks, M.Lead.Text, M.Lead.Shown, M.Lead.Proper, GR.Complete;
    var tool := R.Glm(M.FreshGlm(t));
    M.SpeaksTags(v);
    var r := R.NewRouter(v, tool, lead.Thought?);
    NewPending(v, tool, lead.Thought?);
    StreamOf(u, r, session, base, passes);
    var text := lead.Text(v) + (form.text + GR.Stanza(t, calls, after));
    var q, g := M.GlmRun(v, t, lead, form, calls, after, false);
    CompleteLive(g, calls);
    assert Concat([text]) == text + Concat([]) == text;
    M.GlmMessageIff(v, t, lead, form, calls, after, [text]);
  }

  lemma CompleteLive(g: G.Glm, calls: seq<Call>)
    requires GR.Complete(g, calls)
    ensures g.Live()
  {
  }

  // ------------------------------------------------------------------------------------
  // When sampling is greedy
  // ------------------------------------------------------------------------------------

  /** Held back: `b` may still become a think tag, the text in front of it cannot. */
  ghost predicate Waits(v: R.Vocab, s: string, b: string) {
    && (b == "" || HoldBack(v.think, b))
    && forall i :: 0 <= i < |s| ==> Q.NoTag(v, (s + b)[i..], false)
  }

  lemma HeldOver(r: R.Router, b: string)
    requires r.Valid() && r.pending == "" && !r.active && (b == "" || HoldBack(r.vocab.think, b))
    ensures R.Run(r, b, false) == r.(pending := b)
  {
    if b != "" {
      var t := r.vocab.think;
      if t.open <= b {
        NotWhole(t.open, t.close, b);
      }
      if t.close <= b {
        NotWhole(t.close, t.open, b);
      }
    }
  }

  /** A part of a tag is neither that tag nor one that does not begin it. */
  lemma NotWhole(t: string, u: string, b: string)
    requires !(t <= u) && (b < t || b < u)
    ensures !(t <= b)
  {
  }

  lemma GreedyHeld(r: R.Router, v: R.Vocab, tool: R.Tool, s: string)
    requires Q.Calm(r, v, tool, "", s)
    ensures WantsGreedy(r) <==> exists j :: 0 <= j && j + 2 <= |s| && Q.Begins(v, s[j..])
  {
    hide R.Tool.Valid, R.Vocab.Shape, R.NoMarker, Q.Begins;
    if |r.startTail| > 1 {
      assert Q.Begins(v, s[|s| - |r.startTail|..]);
    }
  }

  /**
   Prose, inside or outside thinking: the next token is sampled greedily exactly when the
   text ends in two or more bytes that may still become a start form.
   */
  lemma GreedyInProse(v: R.Vocab, tool: R.Tool, inThink: bool, s: string, b: string)
    requires Q.Speaks(v) && tool.Valid() && R.NoMarker(s, v.markers) && Q.FormFree(v, s) && Waits(v, s, b)
    ensures var r := R.NewRouter(v, tool, inThink);
            r.Valid() && (WantsGreedy(R.Text(r, s + b))
                          <==> exists j :: 0 <= j && j + 2 <= |s| && Q.Begins(v, s[j..]))
  {
    hide R.Run, Q.Calm, R.NoMarker, Q.FormFree, Q.Speaks, Q.NoTag, R.NewRouter, R.Tool.Valid, Q.Begins, WantsGreedy;
    M.SpeaksTags(v);
    var r := R.NewRouter(v, tool, inThink);
    M.NewPlain(v, tool, inThink);
    M.NewCalm(v, tool, inThink);
    assert "" + s == s && (s + b)[|s|..] == b && r.pending + (s + b) == s + b;
    var q, n := Q.CalmRun(r, v, tool.Reset(), "", "", s, b, false);
    CalmIdle(q, v, tool.Reset(), s);
    HeldOver(q, b);
    GreedyHeld(q, v, tool.Reset(), s);
    GreedyNow(q, b);
    assert r.(pending := "") == r;
  }

  lemma CalmIdle(r: R.Router, v: R.Vocab, tool: R.Tool, s: string)
    requires Q.Calm(r, v, tool, "", s)
    ensures r.Valid() && r.pending == "" && !r.active && r.vocab == v
  {
  }

  /** Held back bytes have no say. */
  lemma GreedyNow(r: R.Router, b: string)
    ensures WantsGreedy(r.(pending := b)) == WantsGreedy(r)
  {
  }

  /**
   Inside a DSML stanza: greedily in structure, in a value exactly when its ending may
   still become the close tag, and no longer once the stanza has ended.
   */
  lemma GreedyInStanza(v: R.Vocab, t: D.Tags, lead: M.Lead, form: R.Form, rest: string)
    requires M.Belongs(v, t) && lead.Proper(v) && form in v.forms
    requires t.Shape() && R.Dsml(D.Fresh(t)).Valid() && v.Shape()
    requires var w := D.Parse(D.Started(t).Append(M.Implied(t, form) + rest));
             !w.phase.Error? && (w.phase.Done? ==> Spaces(w.raw[w.parsePos..]))
    ensures var r := R.NewRouter(v, R.Dsml(D.Fresh(t)), lead.Thought?);
            var w := D.Parse(D.Started(t).Append(M.Implied(t, form) + rest));
            WantsGreedy(R.Text(r, lead.Text(v) + (form.text + rest)))
            == (w.phase.Structural? || (w.phase.ParamValue? && P.ClosePrefix(w)))
  {
    hide R.Run, R.NewRouter, D.Parse, M.Belongs, M.Lead.Text, M.Lead.Proper, M.Lead.Shown, M.Implied, D.Tags.Shape,
         P.ClosePrefix, M.Finished, Q.Opened, Q.Fed;
    var tool := R.Dsml(D.Fresh(t));
    var r := R.NewRouter(v, tool, lead.Thought?);
    NewPending(v, tool, lead.Thought?);
    var text := lead.Text(v) + (form.text + rest);
    assert r.(pending := "") == r && r.pending + text == text;
    var w := D.Parse(D.Started(t).Append(M.Implied(t, form) + rest));
    M.OpenedDsml(v, t, form, rest);
    BelongsSpeaks(v, t);
    if w.phase.Done? {
      var q := M.DsmlRun(v, t, lead, form, rest, false);
      FinishedDone(q, v, w.calls, lead.Shown());
    } else {
      StanzaPhase(t, M.Implied(t, form) + rest);
      var q := M.StartRun(v, tool, lead, form, rest, false);
      var q1 := M.BlockRun(q, v, Q.Opened(v, tool.Reset(), form), lead.Shown(), rest, "", false);
      assert rest + "" == rest;
      M.RunNothing(q1, false);
    }
  }

  lemma BelongsSpeaks(v: R.Vocab, t: D.Tags)
    requires M.Belongs(v, t)
    ensures Q.Speaks(v)
  {
  }

  /** A started parser never searches again. */
  lemma StanzaPhase(t: D.Tags, s: string)
    requires t.Shape()
    ensures D.Started(t).Append(s).Valid() && !D.Parse(D.Started(t).Append(s)).phase.Search?
  {
    D.ParsePhase(D.Started(t).Append(s));
  }
}
