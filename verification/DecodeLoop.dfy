/**
 The decode loop of a turn: sample, extend speculatively, commit token by token, and
 rewind when a block has to be cut short.

 `Run` is the loop as a function of everything the environment decides; the parser and
 renderer behind it are an arbitrary state `S` advanced by each committed token.
 */
module DecodeLoop {
  import opened Strings
  import opened AgentSession

  /** What the tool parser says after a token. */
  datatype Verdict = Continue | ToolDone | PreflightError | Malformed

  datatype Env<!S> = Env(
    maxTokens: int,
    isStop: int -> bool,
    step: (S, int) -> S,          // agent_stream_text on the token's text
    greedy: S -> bool,            // agent_stream_wants_greedy_sampling
    verdict: S -> Verdict,
    upto: seq<int>,               // the tokens of the forced marker line
    backend: Backend)

  /** How a token came to be committed. */
  datatype Origin = Sampled(greedy: bool) | Forced

  datatype Turn<S> = Turn(
    session: Session,
    transcript: seq<int>,
    generated: nat,
    stream: S,
    origins: seq<Origin>,         // one per generated token
    drift: nat)                   // tokens the session holds beyond the transcript

  /** Everything outside the loop's control in one pass. */
  datatype Pass = Pass(
    sampled: int,                 // the token sampling returns
    drafted: seq<int>,            // the tokens committed speculatively behind it
    evalFails: bool,
    replaceAt: nat,               // the block index where the [upto] forcer steps in
    forceFailsAt: nat,            // the forced token whose evaluation fails
    reEvalFails: bool,
    rewindFails: bool,            // a rewind does not restore the backend's state
    left: Option<nat>)            // how many tokens a failed evaluation leaves in the session
  {
    function Block(): (r: seq<int>)
      ensures |r| > 0 && r[0] == sampled
    {
      [sampled] + drafted
    }
  }

  datatype Exit =
    | Again                       // the next pass samples
    | StopToken | StopInBlock     // a stop token, sampled or inside a block
    | ToolStop(why: Verdict)
    | NoRoom | Interrupted
    | Failed

  datatype Result<S> = Result(turn: Turn<S>, exit: Exit)

  /** worker_finish_generated_token without its evaluation */
  function Commit<S>(env: Env<S>, t: Turn<S>, token: int, how: Origin): Turn<S> {
    t.(transcript := t.transcript + [token], generated := t.generated + 1,
       stream := env.step(t.stream, token), origins := t.origins + [how])
  }

  /** ds4_session_rewind by the worker; what a refused rewind leaves behind is drift. */
  function RewindTo<S>(env: Env<S>, t: Turn<S>, pos: nat, fails: bool): Turn<S> {
    var s := Rewind(t.session, pos, env.backend, fails);
    t.(session := s, drift := t.drift + if |s.tokens| > pos then |s.tokens| - pos else 0)
  }

  /** worker_force_generated_text, the room already checked */
  function Force<S>(env: Env<S>, t: Turn<S>, toks: seq<int>, failsAt: nat): Result<S>
    decreases |toks|
  {
    if toks == [] then Result(t, Again)
    else
      var c := Commit(env, t, toks[0], Forced);
      if failsAt == 0 then Result(c.(session := INVALID, drift := 0), Failed)
      else Force(env, c.(session := Eval(c.session, toks[0])), toks[1..], failsAt - 1)
  }

  /** The [upto] branch: drop the rest of the block and commit the marker instead. */
  function Replace<S>(env: Env<S>, t: Turn<S>, pass: Pass, pos: nat): Result<S> {
    var r := RewindTo(env, t, pos, pass.rewindFails);
    if |env.upto| > env.maxTokens - t.generated then Result(r, Failed)
    else Force(env, r, env.upto, pass.forceFailsAt)
  }

  /** The tokens of a block, one by one; `start` is the session position before the block. */
  function Absorb<S>(env: Env<S>, t: Turn<S>, pass: Pass, start: nat, ti: nat, greedy: bool): Result<S>
    requires ti <= |pass.Block()|
    decreases |pass.Block()| - ti
  {
    var block := pass.Block();
    if ti == |block| then Result(t, Again)
    else if t.generated >= env.maxTokens then
      Result(t.(drift := t.drift + |block| - ti), Again)
    else if env.isStop(block[ti]) then Result(RewindTo(env, t, start + ti, pass.rewindFails), StopInBlock)
    else if pass.replaceAt == ti then Replace(env, t, pass, start + ti)
    else
      var c := Commit(env, t, block[ti], Sampled(greedy));
      if env.verdict(c.stream) != Continue then
        Result(if ti + 1 < |block| then RewindTo(env, c, start + ti + 1, pass.rewindFails) else c,
               ToolStop(env.verdict(c.stream)))
      else if ti + 1 < |block| && env.greedy(c.stream) != greedy then
        var r := RewindTo(env, c, start + ti, pass.rewindFails);
        if pass.reEvalFails then Result(r.(session := FailedEval(r.session, [block[ti]], pass.left)), Failed)
        else Result(r.(session := Eval(r.session, block[ti])), Again)
      else Absorb(env, c, pass, start, ti + 1, greedy)
  }

  /** One pass of the loop. */
  function DoPass<S>(env: Env<S>, t: Turn<S>, pass: Pass): Result<S> {
    if env.isStop(pass.sampled) then Result(t, StopToken)
    else if pass.evalFails then
      Result(t.(session := FailedEval(t.session, pass.Block(), pass.left)), Failed)
    else
      var start := |t.session.tokens|;
      Absorb(env, t.(session := EvalBlock(t.session, pass.Block())), pass, start, 0, env.greedy(t.stream))
  }

  /** The loop; it is interrupted when the passes run out. */
  function Run<S>(env: Env<S>, t: Turn<S>, passes: seq<Pass>): Result<S>
    decreases |passes|
  {
    if t.generated >= env.maxTokens then Result(t, NoRoom)
    else if passes == [] then Result(t, Interrupted)
    else
      var r := DoPass(env, t, passes[0]);
      if r.exit.Again? then Run(env, r.turn, passes[1..]) else r
  }

  // ------------------------------------------------------------------------------------
  // The session follows the transcript
  // ------------------------------------------------------------------------------------

  /** Between blocks: the session is the transcript, or ahead of it by exactly the drift. */
  ghost predicate Tracks<S>(t: Turn<S>) {
    && |t.session.tokens| == |t.transcript| + t.drift
    && (t.drift == 0 ==> t.session.tokens == t.transcript)
  }

  /** Committed tokens are appended to the transcript, and counted. */
  ghost predicate Grew<S>(t: Turn<S>, u: Turn<S>) {
    t.transcript <= u.transcript && |u.transcript| - |t.transcript| == u.generated - t.generated
  }

  /** Inside a block: the first `ti` of its tokens are committed. */
  ghost predicate MidBlock<S>(t: Turn<S>, block: seq<int>, start: nat, ti: nat) {
    && ti <= |block|
    && |t.session.tokens| == start + |block| && t.session.ready
    && (forall k :: 0 <= k < |block| ==> t.session.tokens[start + k] == block[k])
    && |t.transcript| + t.drift == start + ti
    && (t.drift == 0 ==> t.transcript == t.session.tokens[..start + ti])
  }

  lemma CommitMid<S>(env: Env<S>, t: Turn<S>, block: seq<int>, start: nat, ti: nat, how: Origin)
    requires MidBlock(t, block, start, ti) && ti < |block|
    ensures MidBlock(Commit(env, t, block[ti], how), block, start, ti + 1)
  {
    var tokens := t.session.tokens;
    assert tokens[..start + ti + 1] == tokens[..start + ti] + [tokens[start + ti]];
  }

  /** A rewind to the committed part of a block. */
  lemma RewindMid<S>(env: Env<S>, t: Turn<S>, block: seq<int>, start: nat, ti: nat, fails: bool)
    requires MidBlock(t, block, start, ti) && start > 0
    ensures Tracks(RewindTo(env, t, start + ti, fails))
    ensures env.backend.partialRewind || ti == |block| ==> RewindTo(env, t, start + ti, fails).drift == t.drift
  {
  }

  lemma {:induction false} ForceTracks<S>(env: Env<S>, t: Turn<S>, toks: seq<int>, failsAt: nat)
    requires Tracks(t)
    ensures var r := Force(env, t, toks, failsAt);
            && (r.exit.Again? || r.exit.Failed?) && Grew(t, r.turn)
            && (r.exit.Again? ==> Tracks(r.turn) && r.turn.drift == t.drift
                                  && r.turn.generated == t.generated + |toks|
                                  && (toks != [] ==> r.turn.session.ready))
            && (r.exit.Failed? ==> r.turn.session == INVALID)
            && r.turn.generated <= t.generated + |toks|
    decreases |toks|
  {
    if toks != [] {
      var c := Commit(env, t, toks[0], Forced);
      var u := c.(session := Eval(c.session, toks[0]));
      if failsAt > 0 {
        ForceTracks(env, u, toks[1..], failsAt - 1);
      }
    }
  }

  /** The environment honours the contracts the loop relies on. */
  ghost predicate Contract<S>(env: Env<S>, t: Turn<S>, pass: Pass) {
    && env.upto != []
    && (env.backend.boundsBlocks ==> |pass.Block()| <= env.maxTokens - t.generated)
    && (env.backend.cleanFailure && pass.evalFails && pass.left.Some? ==> pass.left.value <= |t.session.tokens|)
    && (env.backend.restores ==> !pass.rewindFails)
  }

  /** What is left of a block fits the room that is left. */
  ghost predicate Fits<S>(env: Env<S>, t: Turn<S>, block: seq<int>, ti: nat) {
    env.backend.boundsBlocks ==> |block| - ti <= env.maxTokens - t.generated
  }

  lemma ReplaceTracks<S>(env: Env<S>, t: Turn<S>, pass: Pass, start: nat, ti: nat)
    requires MidBlock(t, pass.Block(), start, ti) && start > 0 && env.upto != []
    ensures var r := Replace(env, t, pass, start + ti);
            && (r.exit.Again? || r.exit.Failed?) && Grew(t, r.turn)
            && (r.exit.Again? ==> Tracks(r.turn) && r.turn.session.ready && r.turn.generated > t.generated)
            && (t.generated <= env.maxTokens ==> r.turn.generated <= env.maxTokens)
            && (r.exit.Again? && env.backend.InStep() ==> r.turn.drift == t.drift)
            && (r.exit.Failed? && env.backend.InStep() && t.drift == 0
                ==> Holds(r.turn.session, r.turn.transcript))
  {
    hide Rewind, Force;
    RewindMid(env, t, pass.Block(), start, ti, pass.rewindFails);
    var u := RewindTo(env, t, start + ti, pass.rewindFails);
    ForceTracks(env, u, env.upto, pass.forceFailsAt);
  }

  /** How a block ends. */
  ghost predicate BlockEnd<S>(env: Env<S>, t: Turn<S>, r: Result<S>) {
    && !r.exit.StopToken? && !r.exit.NoRoom? && !r.exit.Interrupted? && Grew(t, r.turn)
    && (!r.exit.Failed? ==> Tracks(r.turn))
    && (r.exit.Again? ==> r.turn.session.ready)
    && t.generated <= r.turn.generated <= env.maxTokens
    && (env.backend.InStep() && t.drift == 0 ==>
          Holds(r.turn.session, r.turn.transcript) && (!r.exit.Failed? ==> r.turn.drift == 0))
  }

  lemma OutOfRoomEnds<S>(env: Env<S>, t: Turn<S>, block: seq<int>, start: nat, ti: nat)
    requires MidBlock(t, block, start, ti) && Fits(env, t, block, ti) && t.generated <= env.maxTokens
    requires ti == |block| || t.generated == env.maxTokens
    ensures BlockEnd(env, t, Result(t.(drift := t.drift + |block| - ti), Again))
  {
    if ti == |block| {
      assert t.session.tokens[..start + ti] == t.session.tokens;
    }
  }

  lemma StopEnds<S>(env: Env<S>, t: Turn<S>, block: seq<int>, start: nat, ti: nat, fails: bool)
    requires MidBlock(t, block, start, ti) && start > 0 && t.generated <= env.maxTokens
    ensures BlockEnd(env, t, Result(RewindTo(env, t, start + ti, fails), StopInBlock))
  {
    hide Rewind;
    RewindMid(env, t, block, start, ti, fails);
  }

  lemma VerdictEnds<S>(env: Env<S>, t: Turn<S>, block: seq<int>, start: nat, ti: nat, how: Origin, why: Verdict,
                       fails: bool)
    requires MidBlock(t, block, start, ti) && start > 0 && ti < |block| && t.generated < env.maxTokens
    ensures var c := Commit(env, t, block[ti], how);
            BlockEnd(env, t, Result(if ti + 1 < |block| then RewindTo(env, c, start + ti + 1, fails) else c,
                                    ToolStop(why)))
  {
    hide Rewind;
    var c := Commit(env, t, block[ti], how);
    CommitMid(env, t, block, start, ti, how);
    if ti + 1 < |block| {
      RewindMid(env, c, block, start, ti + 1, fails);
    } else {
      assert c.session.tokens[..start + ti + 1] == c.session.tokens;
    }
  }

  /** Re-evaluating the boundary token after a mode change restores session and logits. */
  lemma ModeChangeEnds<S>(env: Env<S>, t: Turn<S>, block: seq<int>, start: nat, ti: nat, how: Origin, left: Option<nat>,
                          fails: bool)
    requires MidBlock(t, block, start, ti) && start > 0 && ti < |block| && t.generated < env.maxTokens
    ensures var c := Commit(env, t, block[ti], how);
            var r := RewindTo(env, c, start + ti, fails);
            && BlockEnd(env, t, Result(r.(session := Eval(r.session, block[ti])), Again))
            && BlockEnd(env, t, Result(r.(session := FailedEval(r.session, [block[ti]], left)), Failed))
  {
  }

  lemma {:induction false} AbsorbEnds<S>(env: Env<S>, t: Turn<S>, pass: Pass, start: nat, ti: nat, greedy: bool)
    requires ti <= |pass.Block()| && MidBlock(t, pass.Block(), start, ti) && start > 0 && env.upto != []
    requires Fits(env, t, pass.Block(), ti) && t.generated <= env.maxTokens
    ensures BlockEnd(env, t, Absorb(env, t, pass, start, ti, greedy))
    decreases |pass.Block()| - ti
  {
    hide RewindTo, Eval, FailedEval, Replace, MidBlock, BlockEnd;
    var block := pass.Block();
    if ti == |block| || t.generated >= env.maxTokens {
      OutOfRoomEnds(env, t, block, start, ti);
      assert t.(drift := t.drift + 0) == t;
    } else if env.isStop(block[ti]) {
      StopEnds(env, t, block, start, ti, pass.rewindFails);
    } else if pass.replaceAt == ti {
      ReplaceTracks(env, t, pass, start, ti);
      ReplaceEnds(env, t, Replace(env, t, pass, start + ti));
    } else {
      var how := Sampled(greedy);
      var c := Commit(env, t, block[ti], how);
      if env.verdict(c.stream) != Continue {
        VerdictEnds(env, t, block, start, ti, how, env.verdict(c.stream), pass.rewindFails);
      } else if ti + 1 < |block| && env.greedy(c.stream) != greedy {
        ModeChangeEnds(env, t, block, start, ti, how, pass.left, pass.rewindFails);
      } else {
        CommitMid(env, t, block, start, ti, how);
        AbsorbEnds(env, c, pass, start, ti + 1, greedy);
        LaterEnds(env, t, block[ti], how, Absorb(env, c, pass, start, ti + 1, greedy));
      }
    }
  }

  lemma ReplaceEnds<S>(env: Env<S>, t: Turn<S>, r: Result<S>)
    requires (r.exit.Again? || r.exit.Failed?) && Grew(t, r.turn)
    requires r.exit.Again? ==> Tracks(r.turn) && r.turn.session.ready && r.turn.generated > t.generated
    requires r.turn.generated <= env.maxTokens
    requires r.exit.Again? && env.backend.InStep() ==> r.turn.drift == t.drift
    requires r.exit.Failed? && env.backend.InStep() && t.drift == 0 ==> Holds(r.turn.session, r.turn.transcript)
    ensures BlockEnd(env, t, r)
  {
  }

  lemma LaterEnds<S>(env: Env<S>, t: Turn<S>, token: int, how: Origin, r: Result<S>)
    requires BlockEnd(env, Commit(env, t, token, how), r)
    ensures BlockEnd(env, t, r)
  {
    var c := Commit(env, t, token, how);
    assert c.transcript[..|t.transcript|] == t.transcript;
  }

  // ------------------------------------------------------------------------------------
  // Whole runs
  // ------------------------------------------------------------------------------------

  /** The state at the head of the loop. */
  ghost predicate AtHead<S>(env: Env<S>, t: Turn<S>) {
    && Tracks(t) && t.session.ready && t.transcript != []
    && (t.generated <= env.maxTokens || t.generated == 0)
  }

  lemma FirstCommitted<S>(env: Env<S>, u: Turn<S>, pass: Pass, start: nat, greedy: bool)
    requires MidBlock(u, pass.Block(), start, 0) && start > 0 && env.upto != []
    requires Fits(env, u, pass.Block(), 0) && u.generated < env.maxTokens
    requires !env.isStop(pass.sampled) && pass.replaceAt != 0
    ensures Absorb(env, u, pass, start, 0, greedy).exit.Again?
        ==> Absorb(env, u, pass, start, 0, greedy).turn.generated > u.generated
  {
    hide Rewind, Force, Replace;
    var c := Commit(env, u, pass.sampled, Sampled(greedy));
    CommitMid(env, u, pass.Block(), start, 0, Sampled(greedy));
    AbsorbEnds(env, c, pass, start, 1, greedy);
  }

  /** A pass that samples no stop token and evaluates. */
  lemma PassEnds<S>(env: Env<S>, t: Turn<S>, pass: Pass)
    requires AtHead(env, t) && t.generated < env.maxTokens && Contract(env, t, pass)
    requires !env.isStop(pass.sampled) && !pass.evalFails
    ensures BlockEnd(env, t, DoPass(env, t, pass))
    ensures DoPass(env, t, pass).exit.Again? ==> DoPass(env, t, pass).turn.generated > t.generated
  {
    hide Rewind, Force, Replace, RewindTo, Absorb;
    var block := pass.Block();
    var start := |t.session.tokens|;
    var u := t.(session := EvalBlock(t.session, block));
    assert u.session.tokens[..start + 0] == t.session.tokens;
    var greedy := env.greedy(t.stream);
    AbsorbEnds(env, u, pass, start, 0, greedy);
    if pass.replaceAt == 0 {
      ReplaceTracks(env, u, pass, start, 0);
      assert Absorb(env, u, pass, start, 0, greedy) == Replace(env, u, pass, start + 0) by {
        FirstReplaced(env, u, pass, start, greedy);
      }
    } else {
      FirstCommitted(env, u, pass, start, greedy);
    }
  }

  lemma FirstReplaced<S>(env: Env<S>, u: Turn<S>, pass: Pass, start: nat, greedy: bool)
    requires u.generated < env.maxTokens && !env.isStop(pass.sampled) && pass.replaceAt == 0
    ensures Absorb(env, u, pass, start, 0, greedy) == Replace(env, u, pass, start)
  {
  }

  /** What one pass leaves, whatever the environment did. */
  lemma PassKeeps<S>(env: Env<S>, t: Turn<S>, pass: Pass)
    requires AtHead(env, t) && t.generated < env.maxTokens && Contract(env, t, pass)
    ensures var r := DoPass(env, t, pass);
            && Grew(t, r.turn)
            && (r.exit.Again? ==> AtHead(env, r.turn) && r.turn.generated > t.generated)
            && r.turn.generated <= env.maxTokens
            && (!r.exit.Failed? ==> Tracks(r.turn))
            && (env.backend.InStep() && t.drift == 0 && !r.exit.Failed? ==> r.turn.drift == 0)
            && (env.backend.Follows() && t.drift == 0 ==> Holds(r.turn.session, r.turn.transcript))
  {
    hide Rewind, Force, Replace, RewindTo, Absorb;
    if !env.isStop(pass.sampled) && !pass.evalFails {
      PassEnds(env, t, pass);
    }
  }

  /** The contracts hold in every pass that is reached. */
  ghost predicate Honoured<S>(env: Env<S>, t: Turn<S>, passes: seq<Pass>)
    decreases |passes|
  {
    passes == [] || t.generated >= env.maxTokens ||
    (Contract(env, t, passes[0]) &&
     var r := DoPass(env, t, passes[0]);
     r.exit.Again? ==> Honoured(env, r.turn, passes[1..]))
  }

  /**
   Over every run of the loop: at each exit that is not an error, the session's timeline
   is the transcript if and only if nothing drifted; with a backend that rewinds and
   bounds its blocks nothing ever drifts; and with one whose failures are also clean, an
   error leaves the session a beginning of the transcript.
   */
  lemma {:induction false} SessionFollowsTranscript<S>(env: Env<S>, t: Turn<S>, passes: seq<Pass>)
    requires AtHead(env, t) && Honoured(env, t, passes)
    ensures var r := Run(env, t, passes);
            && Grew(t, r.turn) && !r.exit.Again?
            && (!r.exit.Failed? ==> (r.turn.session.tokens == r.turn.transcript <==> r.turn.drift == 0))
            && (env.backend.InStep() && t.drift == 0 && !r.exit.Failed?
                ==> r.turn.session.tokens == r.turn.transcript)
            && (env.backend.Follows() && t.drift == 0 ==> Holds(r.turn.session, r.turn.transcript))
            && (r.turn.generated <= env.maxTokens || r.turn.generated == 0)
    decreases |passes|
  {
    hide DoPass, Contract;
    if t.generated < env.maxTokens && passes != [] {
      var r := DoPass(env, t, passes[0]);
      PassKeeps(env, t, passes[0]);
      if r.exit.Again? {
        SessionFollowsTranscript(env, r.turn, passes[1..]);
      }
    }
  }

  /** Every continuing pass commits a token, so the loop ends by itself. */
  lemma {:induction false} LoopTerminates<S>(env: Env<S>, t: Turn<S>, passes: seq<Pass>)
    requires AtHead(env, t) && Honoured(env, t, passes)
    requires |passes| >= env.maxTokens - t.generated
    ensures !Run(env, t, passes).exit.Interrupted?
    decreases |passes|
  {
    hide DoPass, Contract;
    if t.generated < env.maxTokens {
      var r := DoPass(env, t, passes[0]);
      PassKeeps(env, t, passes[0]);
      if r.exit.Again? {
        LoopTerminates(env, r.turn, passes[1..]);
      } else {
        PassNotInterrupted(env, t, passes[0]);
      }
    }
  }

  lemma PassNotInterrupted<S>(env: Env<S>, t: Turn<S>, pass: Pass)
    requires AtHead(env, t) && t.generated < env.maxTokens && Contract(env, t, pass)
    ensures !DoPass(env, t, pass).exit.Interrupted?
  {
    hide Rewind, Force, Replace, RewindTo, Absorb;
    if !env.isStop(pass.sampled) && !pass.evalFails {
      PassEnds(env, t, pass);
    }
  }

  /** worker_run_turn's bound on the tokens of one message */
  function MaxTokens(nPredict: int, ctx: int, pos: int): int {
    var room := ctx - pos;
    if room <= 1 then 0 else if nPredict > room - 1 then room - 1 else nPredict
  }

  /** Even with a whole block speculated, the session stays below the context size. */
  lemma StaysInContext<S>(env: Env<S>, t: Turn<S>, pass: Pass, nPredict: int, ctx: int, pos: nat)
    requires AtHead(env, t) && t.drift == 0 && env.backend.InStep() && Contract(env, t, pass)
    requires env.maxTokens == MaxTokens(nPredict, ctx, pos) && |t.transcript| == pos + t.generated
    requires t.generated < env.maxTokens
    ensures |EvalBlock(t.session, pass.Block()).tokens| < ctx
    ensures |t.session.tokens| < ctx
  {
  }

  /**
   Over every run that starts with a synchronised session, and at every exit: neither
   session nor transcript reaches the context size.
   */
  lemma RunStaysInContext<S>(env: Env<S>, t: Turn<S>, passes: seq<Pass>, nPredict: int, ctx: int)
    requires AtHead(env, t) && Honoured(env, t, passes) && env.backend.Follows() && t.drift == 0
    requires t.generated == 0 && |t.session.tokens| < ctx
    requires env.maxTokens == MaxTokens(nPredict, ctx, |t.session.tokens|)
    ensures var r := Run(env, t, passes);
            |r.turn.session.tokens| <= |r.turn.transcript| < ctx
  {
    hide Run, Honoured;
    SessionFollowsTranscript(env, t, passes);
  }

  // ------------------------------------------------------------------------------------
  // The backend's state stays that of the timeline
  // ------------------------------------------------------------------------------------

  lemma {:induction false} ForceIntact<S>(env: Env<S>, t: Turn<S>, toks: seq<int>, failsAt: nat)
    requires t.session.state.Intact?
    ensures Force(env, t, toks, failsAt).turn.session.state.Intact?
    decreases |toks|
  {
    if toks != [] && failsAt > 0 {
      var c := Commit(env, t, toks[0], Forced);
      ForceIntact(env, c.(session := Eval(c.session, toks[0])), toks[1..], failsAt - 1);
    }
  }

  lemma {:induction false} AbsorbIntact<S>(env: Env<S>, t: Turn<S>, pass: Pass, start: nat, ti: nat, greedy: bool)
    requires ti <= |pass.Block()| && t.session.state.Intact? && !pass.rewindFails
    ensures Absorb(env, t, pass, start, ti, greedy).turn.session.state.Intact?
    decreases |pass.Block()| - ti
  {
    hide Force;
    var block := pass.Block();
    if ti < |block| {
      ForceIntact(env, RewindTo(env, t, start + ti, pass.rewindFails), env.upto, pass.forceFailsAt);
      var c := Commit(env, t, block[ti], Sampled(greedy));
      AbsorbIntact(env, c, pass, start, ti + 1, greedy);
    }
  }

  lemma PassIntact<S>(env: Env<S>, t: Turn<S>, pass: Pass)
    requires t.session.state.Intact? && !pass.rewindFails
    ensures DoPass(env, t, pass).turn.session.state.Intact?
  {
    hide Absorb;
    var u := t.(session := EvalBlock(t.session, pass.Block()));
    AbsorbIntact(env, u, pass, |t.session.tokens|, 0, env.greedy(t.stream));
  }

  /** With a backend that restores its state, it is that of the tokens at every exit. */
  lemma {:induction false} StateStaysIntact<S>(env: Env<S>, t: Turn<S>, passes: seq<Pass>)
    requires env.backend.restores && t.session.state.Intact? && Honoured(env, t, passes)
    ensures Run(env, t, passes).turn.session.state.Intact?
    decreases |passes|
  {
    hide DoPass;
    if t.generated < env.maxTokens && passes != [] {
      PassIntact(env, t, passes[0]);
      var r := DoPass(env, t, passes[0]);
      if r.exit.Again? {
        StateStaysIntact(env, r.turn, passes[1..]);
      }
    }
  }

  // ------------------------------------------------------------------------------------
  // Every committed token was produced in the mode its context demands
  // ------------------------------------------------------------------------------------

  /** The stream state after the given tokens. */
  function After<S>(env: Env<S>, s0: S, toks: seq<int>): S {
    if toks == [] then s0 else env.step(After(env, s0, toks[..|toks| - 1]), toks[|toks| - 1])
  }

  /** The tokens generated since the transcript was `base`. */
  function Gen<S>(base: seq<int>, t: Turn<S>): seq<int>
    requires |base| <= |t.transcript|
  {
    t.transcript[|base|..]
  }

  /**
   The stream state is that of the generated tokens, and each sampled one was produced
   under the mode that the state just before it demands.
   */
  ghost predicate InMode<S>(env: Env<S>, s0: S, base: seq<int>, t: Turn<S>) {
    && base <= t.transcript && |t.transcript| == |base| + t.generated == |base| + |t.origins|
    && t.stream == After(env, s0, Gen(base, t))
    && forall i :: 0 <= i < t.generated && t.origins[i].Sampled? ==>
         t.origins[i].greedy == env.greedy(After(env, s0, Gen(base, t)[..i]))
  }

  /** Rewinds and evaluations do not touch what was committed. */
  lemma SameCommits<S>(env: Env<S>, s0: S, base: seq<int>, t: Turn<S>, u: Turn<S>)
    requires InMode(env, s0, base, t)
    requires u == t.(session := u.session, drift := u.drift)
    ensures InMode(env, s0, base, u)
  {
  }

  lemma CommitInMode<S>(env: Env<S>, s0: S, base: seq<int>, t: Turn<S>, token: int, how: Origin)
    requires InMode(env, s0, base, t)
    requires how.Sampled? ==> how.greedy == env.greedy(t.stream)
    ensures InMode(env, s0, base, Commit(env, t, token, how))
  {
    var c := Commit(env, t, token, how);
    var g, g' := Gen(base, t), Gen(base, c);
    assert g' == g + [token];
    assert g'[..|g|] == g;
    forall i | 0 <= i < c.generated && c.origins[i].Sampled?
      ensures c.origins[i].greedy == env.greedy(After(env, s0, g'[..i]))
    {
      assert g'[..i] == if i < |g| then g[..i] else g;
    }
  }

  lemma {:induction false} ForceInMode<S>(env: Env<S>, s0: S, base: seq<int>, t: Turn<S>, toks: seq<int>, failsAt: nat)
    requires InMode(env, s0, base, t)
    ensures InMode(env, s0, base, Force(env, t, toks, failsAt).turn)
    decreases |toks|
  {
    hide InMode;
    if toks != [] {
      var c := Commit(env, t, toks[0], Forced);
      CommitInMode(env, s0, base, t, toks[0], Forced);
      SameCommits(env, s0, base, c, c.(session := INVALID, drift := 0));
      var u := c.(session := Eval(c.session, toks[0]));
      SameCommits(env, s0, base, c, u);
      if failsAt > 0 {
        ForceInMode(env, s0, base, u, toks[1..], failsAt - 1);
      }
    }
  }

  lemma ReplaceInMode<S>(env: Env<S>, s0: S, base: seq<int>, t: Turn<S>, pass: Pass, pos: nat)
    requires InMode(env, s0, base, t)
    ensures InMode(env, s0, base, Replace(env, t, pass, pos).turn)
  {
    hide InMode, Force, Rewind;
    var r := RewindTo(env, t, pos, pass.rewindFails);
    SameCommits(env, s0, base, t, r);
    ForceInMode(env, s0, base, r, env.upto, pass.forceFailsAt);
  }

  lemma {:induction false} AbsorbInMode<S>(env: Env<S>, s0: S, base: seq<int>, t: Turn<S>, pass: Pass,
                                           start: nat, ti: nat, greedy: bool)
    requires ti <= |pass.Block()| && InMode(env, s0, base, t)
    requires ti < |pass.Block()| ==> env.greedy(t.stream) == greedy
    ensures InMode(env, s0, base, Absorb(env, t, pass, start, ti, greedy).turn)
    decreases |pass.Block()| - ti
  {
    hide InMode, Replace, Rewind;
    var block := pass.Block();
    SameCommits(env, s0, base, t, t.(drift := t.drift + |block| - ti));
    SameCommits(env, s0, base, t, RewindTo(env, t, start + ti, pass.rewindFails));
    if ti < |block| {
      ReplaceInMode(env, s0, base, t, pass, start + ti);
      var c := Commit(env, t, block[ti], Sampled(greedy));
      CommitInMode(env, s0, base, t, block[ti], Sampled(greedy));
      var r := RewindTo(env, c, start + ti, pass.rewindFails);
      SameCommits(env, s0, base, c, RewindTo(env, c, start + ti + 1, pass.rewindFails));
      SameCommits(env, s0, base, c, r.(session := FailedEval(r.session, [block[ti]], pass.left)));
      SameCommits(env, s0, base, c, r.(session := Eval(r.session, block[ti])));
      if !(ti + 1 < |block| && env.greedy(c.stream) != greedy) {
        AbsorbInMode(env, s0, base, c, pass, start, ti + 1, greedy);
      }
    }
  }

  lemma PassInMode<S>(env: Env<S>, s0: S, base: seq<int>, t: Turn<S>, pass: Pass)
    requires InMode(env, s0, base, t)
    ensures InMode(env, s0, base, DoPass(env, t, pass).turn)
  {
    hide InMode, Absorb;
    SameCommits(env, s0, base, t, t.(session := FailedEval(t.session, pass.Block(), pass.left)));
    var u := t.(session := EvalBlock(t.session, pass.Block()));
    SameCommits(env, s0, base, t, u);
    AbsorbInMode(env, s0, base, u, pass, |t.session.tokens|, 0, env.greedy(t.stream));
  }

  /**
   Over every run, speculative blocks that cross a mode boundary included, each committed
   token that was not forced was produced under the mode demanded just before it.
   */
  lemma {:induction false} CommittedInMode<S>(env: Env<S>, s0: S, base: seq<int>, t: Turn<S>, passes: seq<Pass>)
    requires InMode(env, s0, base, t)
    ensures InMode(env, s0, base, Run(env, t, passes).turn)
    decreases |passes|
  {
    hide InMode, DoPass;
    if t.generated < env.maxTokens && passes != [] {
      PassInMode(env, s0, base, t, passes[0]);
      var r := DoPass(env, t, passes[0]);
      if r.exit.Again? {
        CommittedInMode(env, s0, base, r.turn, passes[1..]);
      }
    }
  }

  // ------------------------------------------------------------------------------------
  // The four conditions on the backend are needed
  // ------------------------------------------------------------------------------------

  function PlainEnv(maxTokens: int, b: Backend): Env<int> {
    Env(maxTokens, (t: int) => t == 9, (s: int, t: int) => s, (s: int) => false, (s: int) => Continue, [7], b)
  }

  function PlainTurn(): Turn<int> {
    Turn(Session([1], true, Intact), [1], 0, 0, [], 0)
  }

  const TWO_TOKENS := Pass(5, [9], false, 100, 100, false, false, None)
  const TWO_PLAIN := Pass(5, [6], false, 100, 100, false, false, None)
  const FAILED_BLOCK := Pass(5, [6], true, 100, 100, false, false, Some(2))

  /** A backend that refuses rewinds keeps the stop token the transcript does not have. */
  lemma RefusedRewindDrifts(b: Backend)
    requires !b.partialRewind
    ensures var env := PlainEnv(10, b);
            var r := Run(env, PlainTurn(), [TWO_TOKENS]);
            && AtHead(env, PlainTurn()) && Honoured(env, PlainTurn(), [TWO_TOKENS])
            && r.exit == StopInBlock
            && r.turn.transcript == [1, 5] && r.turn.session.tokens == [1, 5, 9]
  {
    assert TWO_TOKENS.Block() == [5, 9];
  }

  /** A backend that commits more than it was asked for ends ahead of the transcript. */
  lemma UnboundedBlockDrifts(b: Backend)
    requires !b.boundsBlocks
    ensures var env := PlainEnv(1, b);
            var r := Run(env, PlainTurn(), [TWO_PLAIN]);
            && AtHead(env, PlainTurn()) && Honoured(env, PlainTurn(), [TWO_PLAIN])
            && r.exit == NoRoom
            && r.turn.transcript == [1, 5] && r.turn.session.tokens == [1, 5, 6]
  {
    assert TWO_PLAIN.Block() == [5, 6];
  }

  /**
   A block that fails after its first token is in the session: the loop returns without
   committing the token and without invalidating the session.
   */
  lemma FailedBlockStays(b: Backend)
    requires !b.cleanFailure
    ensures var env := PlainEnv(10, b);
            var r := Run(env, PlainTurn(), [FAILED_BLOCK]);
            && AtHead(env, PlainTurn()) && Honoured(env, PlainTurn(), [FAILED_BLOCK])
            && r.exit == Failed
            && r.turn.transcript == [1] && r.turn.session.tokens == [1, 5]
  {
    assert FAILED_BLOCK.Block() == [5, 6];
    assert [1] + [5, 6] == [1, 5, 6];
  }

  const ONE_REPLACED := Pass(5, [], false, 0, 100, false, true, None)

  /**
   A block of one token is dropped for a forced line, and the rewind does not restore the
   backend's state: the timeline is the transcript, on top of a state that is not its own.
   */
  lemma LostStateStays(b: Backend)
    requires b.partialRewind && !b.restores
    ensures var env := PlainEnv(10, b);
            var r := Run(env, PlainTurn(), [ONE_REPLACED]);
            && AtHead(env, PlainTurn()) && Honoured(env, PlainTurn(), [ONE_REPLACED])
            && r.exit == Interrupted
            && r.turn.session == Session([1, 7], true, Mixed) && r.turn.transcript == [1, 7]
  {
    assert ONE_REPLACED.Block() == [5];
    assert [1] + [5] == [1, 5] && [1, 5][..1] == [1];
    ReplacedRun(PlainEnv(10, b));
  }

  lemma ReplacedRun(env: Env<int>)
    requires env == PlainEnv(10, env.backend) && env.backend.partialRewind
    ensures DoPass(env, PlainTurn(), ONE_REPLACED)
            == Result(Turn(Session([1, 7], true, Mixed), [1, 7], 1, 0, [Forced], 0), Again)
  {
    assert ONE_REPLACED.Block() == [5];
    var u := PlainTurn().(session := EvalBlock(PlainTurn().session, [5]));
    assert u.session.tokens == [1, 5];
    var r := RewindTo(env, u, 1, true);
    assert r.session == Session([1], false, Cut);
    ForceOne(env, r, env.upto, 100);
    assert env.upto[1..] == [] && [1] + [7] == [1, 7];
  }

  /** A run that starts in step, on a state that is its own. */
  ghost predicate SoundRun(env: Env<int>, t: Turn<int>, passes: seq<Pass>) {
    AtHead(env, t) && t.drift == 0 && t.session.state.Intact? && Honoured(env, t, passes)
  }

  /** A run that starts in step and meets no error. */
  ghost predicate CleanRun(env: Env<int>, t: Turn<int>, passes: seq<Pass>) {
    SoundRun(env, t, passes) && !Run(env, t, passes).exit.Failed?
  }

  ghost predicate EndsHeld(env: Env<int>, t: Turn<int>, passes: seq<Pass>) {
    Holds(Run(env, t, passes).turn.session, Run(env, t, passes).turn.transcript)
  }

  ghost predicate EndsTrue(env: Env<int>, t: Turn<int>, passes: seq<Pass>) {
    EndsHeld(env, t, passes) && Run(env, t, passes).turn.session.state.Intact?
  }

  ghost predicate EndsInStep(env: Env<int>, t: Turn<int>, passes: seq<Pass>) {
    Run(env, t, passes).turn.session.tokens == Run(env, t, passes).turn.transcript
  }

  /** Every clean run ends in step, if and only if the backend rewinds and bounds its blocks. */
  lemma InStepIffExact(b: Backend)
    ensures (forall env: Env<int>, t, passes ::
               env.backend == b && CleanRun(env, t, passes) ==> EndsInStep(env, t, passes))
            <==> b.InStep()
  {
    hide Run, Honoured, AtHead;
    if b.InStep() {
      forall env: Env<int>, t, passes | env.backend == b && CleanRun(env, t, passes)
        ensures EndsInStep(env, t, passes)
      {
        SessionFollowsTranscript(env, t, passes);
      }
    } else if !b.partialRewind {
      RefusedRewindDrifts(b);
      var env := PlainEnv(10, b);
      assert CleanRun(env, PlainTurn(), [TWO_TOKENS]) && !EndsInStep(env, PlainTurn(), [TWO_TOKENS]);
    } else {
      UnboundedBlockDrifts(b);
      var env := PlainEnv(1, b);
      assert CleanRun(env, PlainTurn(), [TWO_PLAIN]) && !EndsInStep(env, PlainTurn(), [TWO_PLAIN]);
    }
  }

  /**
   Every run, ended by an error or not, leaves the session a beginning of the transcript,
   if and only if the backend rewinds, bounds its blocks and fails cleanly.
   */
  lemma HeldIffFollows(b: Backend)
    ensures (forall env: Env<int>, t, passes ::
               env.backend == b && SoundRun(env, t, passes) ==> EndsHeld(env, t, passes))
            <==> b.Follows()
  {
    hide Run, Honoured, AtHead;
    if b.Follows() {
      forall env: Env<int>, t, passes | env.backend == b && SoundRun(env, t, passes)
        ensures EndsHeld(env, t, passes)
      {
        SessionFollowsTranscript(env, t, passes);
      }
    } else if !b.partialRewind {
      RefusedRewindDrifts(b);
      var env := PlainEnv(10, b);
      assert SoundRun(env, PlainTurn(), [TWO_TOKENS]) && !EndsHeld(env, PlainTurn(), [TWO_TOKENS]);
    } else if !b.boundsBlocks {
      UnboundedBlockDrifts(b);
      var env := PlainEnv(1, b);
      assert SoundRun(env, PlainTurn(), [TWO_PLAIN]) && !EndsHeld(env, PlainTurn(), [TWO_PLAIN]);
    } else {
      FailedBlockStays(b);
      var env := PlainEnv(10, b);
      assert SoundRun(env, PlainTurn(), [FAILED_BLOCK]) && !EndsHeld(env, PlainTurn(), [FAILED_BLOCK]);
    }
  }

  /** And on a state that is its own, if and only if the backend restores its state as well. */
  lemma TrueIffExact(b: Backend)
    ensures (forall env: Env<int>, t, passes ::
               env.backend == b && SoundRun(env, t, passes) ==> EndsTrue(env, t, passes))
            <==> b.Exact()
  {
    hide Run, Honoured, AtHead;
    HeldIffFollows(b);
    if b.Exact() {
      forall env: Env<int>, t, passes | env.backend == b && SoundRun(env, t, passes)
        ensures EndsTrue(env, t, passes)
      {
        StateStaysIntact(env, t, passes);
      }
    } else if b.Follows() {
      LostStateStays(b);
      var env := PlainEnv(10, b);
      assert SoundRun(env, PlainTurn(), [ONE_REPLACED]) && !EndsTrue(env, PlainTurn(), [ONE_REPLACED]);
    } else {
      hide EndsHeld;
      var env: Env<int>, t, passes :| env.backend == b && SoundRun(env, t, passes) && !EndsHeld(env, t, passes);
      assert !EndsTrue(env, t, passes);
    }
  }

  // ------------------------------------------------------------------------------------
  // The loop as the worker runs it
  // ------------------------------------------------------------------------------------

  lemma ForceOne<S>(env: Env<S>, t: Turn<S>, toks: seq<int>, failsAt: nat)
    requires toks != []
    ensures Force(env, t, toks, failsAt) ==
            var c := Commit(env, t, toks[0], Forced);
            if failsAt == 0 then Result(c.(session := INVALID, drift := 0), Failed)
            else Force(env, c.(session := Eval(c.session, toks[0])), toks[1..], failsAt - 1)
  {
  }

  lemma ForceNone<S>(env: Env<S>, t: Turn<S>, toks: seq<int>, failsAt: nat)
    requires toks == []
    ensures Force(env, t, toks, failsAt) == Result(t, Again)
  {
  }

  class Worker<S> {
    var turn: Turn<S>

    constructor (t: Turn<S>)
      ensures turn == t
    {
      turn := t;
    }

    /** worker_force_generated_text */
    method ForceText(env: Env<S>, failsAt: nat) returns (exit: Exit)
      modifies this
      ensures Result(turn, exit) == if |env.upto| > env.maxTokens - old(turn).generated
                                    then Result(old(turn), Failed)
                                    else Force(env, old(turn), env.upto, failsAt)
    {
      hide Force, Commit, Eval;
      var toks := env.upto;
      if |toks| > env.maxTokens - turn.generated {
        return Failed;
      }
      var i := 0;
      assert toks[0..] == toks;
      while i < |toks|
        invariant i <= |toks| && i <= failsAt
        invariant Force(env, turn, toks[i..], failsAt - i) == Force(env, old(turn), toks, failsAt)
      {
        assert toks[i..][0] == toks[i] && toks[i..][1..] == toks[i + 1..];
        ForceOne(env, turn, toks[i..], failsAt - i);
        turn := Commit(env, turn, toks[i], Forced);
        if i == failsAt {
          turn := turn.(session := INVALID, drift := 0);
          return Failed;
        }
        turn := turn.(session := Eval(turn.session, toks[i]));
        i := i + 1;
      }
      ForceNone(env, turn, toks[i..], failsAt - i);
      return Again;
    }

    /** The tokens of one block. */
    method AbsorbBlock(env: Env<S>, pass: Pass, start: nat, greedy: bool) returns (exit: Exit)
      modifies this
      ensures Result(turn, exit) == Absorb(env, old(turn), pass, start, 0, greedy)
    {
      hide Force, Rewind, RewindTo;
      var block := pass.Block();
      var ti := 0;
      while ti < |block| && turn.generated < env.maxTokens
        invariant ti <= |block|
        invariant Absorb(env, turn, pass, start, ti, greedy) == Absorb(env, old(turn), pass, start, 0, greedy)
      {
        var token := block[ti];
        if env.isStop(token) {
          turn := RewindTo(env, turn, start + ti, pass.rewindFails);
          return StopInBlock;
        }
        if pass.replaceAt == ti {
          ghost var before := turn;
          turn := RewindTo(env, turn, start + ti, pass.rewindFails);
          assert turn.generated == before.generated by { RewindKeeps(env, before, start + ti, pass.rewindFails); }
          exit := ForceText(env, pass.forceFailsAt);
          return;
        }
        turn := Commit(env, turn, token, Sampled(greedy));
        var verdict := env.verdict(turn.stream);
        if verdict != Continue {
          if ti + 1 < |block| {
            turn := RewindTo(env, turn, start + ti + 1, pass.rewindFails);
          }
          return ToolStop(verdict);
        }
        if ti + 1 < |block| && env.greedy(turn.stream) != greedy {
          turn := RewindTo(env, turn, start + ti, pass.rewindFails);
          if pass.reEvalFails {
            turn := turn.(session := FailedEval(turn.session, [token], pass.left));
            return Failed;
          }
          turn := turn.(session := Eval(turn.session, token));
          return Again;
        }
        ti := ti + 1;
      }
      if ti < |block| {
        turn := turn.(drift := turn.drift + |block| - ti);
      }
      return Again;
    }

    /** The sampling loop of worker_run_turn. */
    method DecodeTurn(env: Env<S>, passes: seq<Pass>) returns (exit: Exit)
      modifies this
      ensures Result(turn, exit) == Run(env, old(turn), passes)
    {
      hide Absorb;
      var i := 0;
      assert passes[0..] == passes;
      while turn.generated < env.maxTokens && i < |passes|
        invariant i <= |passes|
        invariant Run(env, turn, passes[i..]) == Run(env, old(turn), passes)
        decreases |passes| - i
      {
        var pass := passes[i];
        assert passes[i..][0] == pass && passes[i..][1..] == passes[i + 1..];
        var greedy := env.greedy(turn.stream);
        if env.isStop(pass.sampled) {
          return StopToken;
        }
        if pass.evalFails {
          turn := turn.(session := FailedEval(turn.session, pass.Block(), pass.left));
          return Failed;
        }
        var start := |turn.session.tokens|;
        turn := turn.(session := EvalBlock(turn.session, pass.Block()));
        exit := AbsorbBlock(env, pass, start, greedy);
        if !exit.Again? {
          return;
        }
        i := i + 1;
      }
      return if turn.generated >= env.maxTokens then NoRoom else Interrupted;
    }
  }

  lemma RewindKeeps<S>(env: Env<S>, t: Turn<S>, pos: nat, fails: bool)
    ensures RewindTo(env, t, pos, fails).generated == t.generated
  {
  }
}
