/**
 Whole sessions of the agent: any sequence of messages, assistant rounds and compactions.

 The claim is the one the agent is built on: the live session never holds anything but a
 beginning of the transcript, so every synchronisation evaluates just what is new.
 */
module AgentTurn {
  import opened Strings
  import opened AgentSession
  import opened Compaction
  import L = DecodeLoop
  import E = LoopExits

  /** One assistant round of worker_run_turn. */
  datatype Round<!S> = Round(
    prefix: seq<int>,             // reminder and assistant prefix
    reply: SyncReply,
    ctx: int,
    nPredict: int,
    env: L.Env<S>,                // its token bound is set by the round
    stream: S,                    // the fresh parser and renderer
    passes: seq<L.Pass>,
    turnEnd: seq<int>)            // the end-of-turn token, or nothing

  datatype Op<!S> =
    | Append(tokens: seq<int>)    // user text, tool results, queued messages, context notes
    | Assistant(round: Round<S>)
    | Compaction(request: Request)

  /** The decode loop's environment in a round that has synchronised to `transcript`. */
  function LoopEnv<S>(r: Round<S>, transcript: seq<int>): L.Env<S> {
    r.env.(maxTokens := L.MaxTokens(r.nPredict, r.ctx, |transcript|))
  }

  function LoopStart<S>(r: Round<S>, session: Session, transcript: seq<int>): L.Turn<S> {
    L.Turn(session, transcript, 0, r.stream, [], 0)
  }

  function DoRound<S>(a: Agent, r: Round<S>): Agent {
    var transcript := a.transcript + r.prefix;
    var synced := Sync(a.session, transcript, r.ctx, r.reply);
    var b := a.(session := synced.session, transcript := transcript);
    if synced.rc == SYNC_INTERRUPTED then b.(transcript := transcript + r.turnEnd)
    else if synced.rc != 0 then b
    else
      var res := L.Run(LoopEnv(r, transcript), LoopStart(r, synced.session, transcript), r.passes);
      var c := b.(session := res.turn.session, transcript := res.turn.transcript);
      if res.exit.Failed? then c else c.(transcript := c.transcript + r.turnEnd)
  }

  function Do<S>(a: Agent, op: Op<S>): Agent {
    match op
    case Append(tokens) => a.(transcript := a.transcript + tokens)
    case Assistant(r) => DoRound(a, r)
    case Compaction(q) => Compact(a, q).agent
  }

  function DoAll<S>(a: Agent, ops: seq<Op<S>>): Agent
    decreases |ops|
  {
    if ops == [] then a else DoAll(Do(a, ops[0]), ops[1..])
  }

  /** The backend meets the conditions of the decode loop, in every round that decodes. */
  ghost predicate Faithful<S>(a: Agent, op: Op<S>) {
    op.Assistant? ==>
      var r := op.round;
      var transcript := a.transcript + r.prefix;
      var synced := Sync(a.session, transcript, r.ctx, r.reply);
      && r.env.backend.Follows()
      && (synced.rc == 0 ==>
            L.Honoured(LoopEnv(r, transcript), LoopStart(r, synced.session, transcript), r.passes))
  }

  ghost predicate AllFaithful<S>(a: Agent, ops: seq<Op<S>>)
    decreases |ops|
  {
    ops == [] || (Faithful(a, ops[0]) && AllFaithful(Do(a, ops[0]), ops[1..]))
  }

  /** Every rewind of the round restores the backend's state. */
  ghost predicate Restores<S>(op: Op<S>) {
    op.Assistant? ==> op.round.env.backend.restores
  }

  lemma RoundHolds<S>(a: Agent, r: Round<S>)
    requires Holds(a.session, a.transcript) && Faithful(a, Assistant(r))
    ensures Holds(DoRound(a, r).session, DoRound(a, r).transcript)
  {
    hide L.Run, L.Honoured, Sync;
    var transcript := a.transcript + r.prefix;
    HoldsMore(a.session, a.transcript, r.prefix);
    SyncHolds(a.session, transcript, r.ctx, r.reply);
    var synced := Sync(a.session, transcript, r.ctx, r.reply);
    if synced.rc == 0 {
      SyncedNonempty(a.session, transcript, r.ctx, r.reply);
      var env, t := LoopEnv(r, transcript), LoopStart(r, synced.session, transcript);
      L.SessionFollowsTranscript(env, t, r.passes);
      var res := L.Run(env, t, r.passes);
      HoldsMore(res.turn.session, res.turn.transcript, r.turnEnd);
    } else {
      HoldsMore(synced.session, transcript, r.turnEnd);
    }
  }

  lemma SyncedNonempty(s: Session, prompt: seq<int>, ctx: int, reply: SyncReply)
    requires Sync(s, prompt, ctx, reply).rc == 0
    ensures prompt != []
  {
  }

  /** The tokens that the loop of a round commits, when its prompt was synchronised. */
  function Generated<S>(a: Agent, r: Round<S>): seq<int> {
    var transcript := a.transcript + r.prefix;
    var synced := Sync(a.session, transcript, r.ctx, r.reply);
    var t := L.Run(LoopEnv(r, transcript), LoopStart(r, synced.session, transcript), r.passes).turn;
    if |transcript| <= |t.transcript| then t.transcript[|transcript|..] else []
  }

  ghost predicate LoopFails<S>(a: Agent, r: Round<S>) {
    var transcript := a.transcript + r.prefix;
    var synced := Sync(a.session, transcript, r.ctx, r.reply);
    L.Run(LoopEnv(r, transcript), LoopStart(r, synced.session, transcript), r.passes).exit.Failed?
  }

  /**
   A round appends its prefix, what the loop committed, and the end of the turn: that last
   one whenever the loop ended without a failure or the prompt was interrupted, and never
   after an error.
   */
  lemma RoundAppends<S>(a: Agent, r: Round<S>)
    ensures var prompt := a.transcript + r.prefix;
            var fits := 0 < |prompt| < r.ctx;
            DoRound(a, r).transcript ==
              if fits && r.reply.Cancelled? then prompt + r.turnEnd
              else if !fits || !r.reply.Synced? then prompt
              else if LoopFails(a, r) then prompt + Generated(a, r)
              else prompt + Generated(a, r) + r.turnEnd
  {
    hide L.Run;
    var prompt := a.transcript + r.prefix;
    var synced := Sync(a.session, prompt, r.ctx, r.reply);
    var t := LoopStart(r, synced.session, prompt);
    var env := LoopEnv(r, prompt);
    E.FreshStopped(env, t);
    E.RunStopped(env, t.stream, prompt, t, r.passes);
    E.StoppedBegins(env, t.stream, prompt, L.Run(env, t, r.passes).turn, L.Run(env, t, r.passes).exit);
    var u := L.Run(env, t, r.passes).turn;
    assert u.transcript == prompt + u.transcript[|prompt|..];
  }

  /** No operation leaves anything in the session that the transcript does not begin with. */
  lemma OpHolds<S>(a: Agent, op: Op<S>)
    requires Holds(a.session, a.transcript) && Faithful(a, op)
    ensures Holds(Do(a, op).session, Do(a, op).transcript)
  {
    hide DoRound, Compact;
    match op
    case Append(tokens) => HoldsMore(a.session, a.transcript, tokens);
    case Assistant(r) => RoundHolds(a, r);
    case Compaction(q) => NoPrivateText(a, q);
  }

  /**
   With such backends KV mismatches are impossible: after any sequence of operations the
   session holds a beginning of the transcript, errors and interrupts included.
   */
  lemma {:induction false} SessionNeverDiverges<S>(a: Agent, ops: seq<Op<S>>)
    requires Holds(a.session, a.transcript) && AllFaithful(a, ops)
    ensures Holds(DoAll(a, ops).session, DoAll(a, ops).transcript)
    decreases |ops|
  {
    hide Do, Faithful;
    if ops != [] {
      OpHolds(a, ops[0]);
      SessionNeverDiverges(Do(a, ops[0]), ops[1..]);
    }
  }

  lemma OpIntact<S>(a: Agent, op: Op<S>)
    requires a.session.state.Intact? && Faithful(a, op) && Restores(op)
    ensures Do(a, op).session.state.Intact?
  {
    hide L.Run, L.Honoured, Sync, Compact;
    match op
    case Append(tokens) =>
    case Assistant(r) =>
      var transcript := a.transcript + r.prefix;
      SyncHolds(a.session, transcript, r.ctx, r.reply);
      var synced := Sync(a.session, transcript, r.ctx, r.reply);
      if synced.rc == 0 {
        L.StateStaysIntact(LoopEnv(r, transcript), LoopStart(r, synced.session, transcript), r.passes);
      }
    case Compaction(q) => CompactIntact(a, q);
  }

  /** With backends that restore their state, the state is always that of those tokens. */
  lemma {:induction false} StateNeverLost<S>(a: Agent, ops: seq<Op<S>>)
    requires a.session.state.Intact? && AllFaithful(a, ops) && forall k :: 0 <= k < |ops| ==> Restores(ops[k])
    ensures DoAll(a, ops).session.state.Intact?
    decreases |ops|
  {
    hide Do, Faithful;
    if ops != [] {
      OpIntact(a, ops[0]);
      StateNeverLost(Do(a, ops[0]), ops[1..]);
    }
  }

  /** So whatever is appended next, synchronising evaluates the new tokens and no more. */
  lemma OnlyTheSuffixIsEvaluated<S>(a: Agent, ops: seq<Op<S>>, prefix: seq<int>)
    requires Holds(a.session, a.transcript) && AllFaithful(a, ops)
    ensures var b := DoAll(a, ops);
            SyncCost(b.session, b.transcript + prefix)
            == |b.transcript + prefix| - if b.session.state.Cut? then 0 else |b.session.tokens|
  {
    SessionNeverDiverges(a, ops);
    var b := DoAll(a, ops);
    HoldsMore(b.session, b.transcript, prefix);
  }

  /** Without compaction the transcript is append-only. */
  lemma {:induction false} AppendOnly<S>(a: Agent, ops: seq<Op<S>>)
    requires Holds(a.session, a.transcript) && AllFaithful(a, ops)
    requires forall k :: 0 <= k < |ops| ==> !ops[k].Compaction?
    ensures a.transcript <= DoAll(a, ops).transcript
    decreases |ops|
  {
    hide Do, Faithful, DoRound;
    if ops != [] {
      OpHolds(a, ops[0]);
      OpAppends(a, ops[0]);
      AppendOnly(Do(a, ops[0]), ops[1..]);
      var b := Do(a, ops[0]);
      assert DoAll(a, ops).transcript[..|a.transcript|] == b.transcript[..|a.transcript|];
    }
  }

  lemma OpAppends<S>(a: Agent, op: Op<S>)
    requires Holds(a.session, a.transcript) && Faithful(a, op) && !op.Compaction?
    ensures a.transcript <= Do(a, op).transcript
  {
    hide L.Run, L.Honoured, Sync;
    if op.Assistant? {
      var r := op.round;
      var transcript := a.transcript + r.prefix;
      var synced := Sync(a.session, transcript, r.ctx, r.reply);
      SyncHolds(a.session, transcript, r.ctx, r.reply);
      if synced.rc == 0 {
        SyncedNonempty(a.session, transcript, r.ctx, r.reply);
        L.SessionFollowsTranscript(LoopEnv(r, transcript), LoopStart(r, synced.session, transcript), r.passes);
        var res := L.Run(LoopEnv(r, transcript), LoopStart(r, synced.session, transcript), r.passes);
        assert res.turn.transcript[..|a.transcript|] == transcript[..|a.transcript|];
      }
    }
  }
}
