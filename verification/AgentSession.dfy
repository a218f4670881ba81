/**
 The live inference session as its callers see it: the tokens whose state it holds, and
 whether its logits belong to the last of them.

 The contracts are those of the session interface; what the backend is free to choose is
 a parameter.
 */
module AgentSession {
  import opened Strings

  /**
   Whether the backend's own state is that of the tokens.  After a rewind that could not
   restore it the checkpoint is marked invalid, `Cut`; an evaluation marks it valid again
   on top of a state that is not that of the tokens, `Mixed`.
   */
  datatype State = Intact | Cut | Mixed

  /** `tokens` is empty once the session has been invalidated. */
  datatype Session = Session(tokens: seq<int>, ready: bool, state: State)

  const INVALID := Session([], false, Intact)

  /**
   Four ways in which backends differ.  A backend without partial rewind refuses every
   rewind but the one to 0 and leaves the session as it is; a backend that does not bound
   its blocks may commit more tokens than it was asked for; a backend whose failures are
   not clean may report a failed block with some of its tokens left in a valid session; a
   backend that does not always restore its state may fail to rewind it with the tokens.
   */
  datatype Backend = Backend(partialRewind: bool, boundsBlocks: bool, cleanFailure: bool, restores: bool)
  {
    /** What keeps the session in step while nothing fails. */
    predicate InStep() {
      partialRewind && boundsBlocks
    }

    /** What keeps the session's tokens a beginning of the transcript whatever happens. */
    predicate Follows() {
      InStep() && cleanFailure
    }

    /** What keeps its state that of those tokens, too. */
    predicate Exact() {
      Follows() && restores
    }
  }

  /** The state after an evaluation. */
  function Further(st: State): State {
    if st.Cut? then Mixed else st
  }

  /** ds4_session_eval, when it succeeds */
  function Eval(s: Session, token: int): Session {
    Session(s.tokens + [token], true, Further(s.state))
  }

  /** ds4_session_eval_speculative, when it succeeds: the block is appended. */
  function EvalBlock(s: Session, block: seq<int>): Session {
    Session(s.tokens + block, true, Further(s.state))
  }

  /** The first `n` tokens, or all of them. */
  function Upto(s: seq<int>, n: nat): seq<int> {
    if n < |s| then s[..n] else s
  }

  /**
   What a failed evaluation of a block leaves: nothing, or the first `left` tokens of the
   session and the block together.
   */
  function FailedEval(s: Session, block: seq<int>, left: Option<nat>): Session {
    if left.None? then INVALID
    else Session(Upto(s.tokens + block, left.value), false, Further(s.state))
  }

  /** ds4_session_rewind to a position inside the session; `fails` when the state is not restored. */
  function Rewind(s: Session, pos: nat, b: Backend, fails: bool): Session {
    if pos >= |s.tokens| then s
    else if b.partialRewind then Session(s.tokens[..pos], false, if fails then Cut else s.state)
    else if pos == 0 then INVALID
    else s
  }

  /** What the backend does with a request to synchronise. */
  datatype SyncReply = Synced | Cancelled(progress: Option<nat>) | SyncError(left: SyncLeft)

  /** What a failed synchronisation leaves: nothing, some of the session, or some of the prompt. */
  datatype SyncLeft = Nothing | OfSession(n: nat) | OfPrompt(n: nat)

  datatype SyncResult = SyncResult(session: Session, rc: int)

  const SYNC_INTERRUPTED := 2

  /** The live state is extended; otherwise it is rebuilt from the first token on. */
  predicate Extends(s: Session, prompt: seq<int>) {
    !s.state.Cut? && s.tokens <= prompt
  }

  /** ds4_session_sync */
  function Sync(s: Session, prompt: seq<int>, ctx: int, reply: SyncReply): SyncResult {
    var st := if Extends(s, prompt) then s.state else Intact;
    if prompt == [] || |prompt| >= ctx then SyncResult(s, 1)
    else
      match reply
      case Synced => SyncResult(Session(prompt, true, st), 0)
      case Cancelled(None) => SyncResult(s.(ready := false), SYNC_INTERRUPTED)
      case Cancelled(Some(n)) =>
        SyncResult(Session(Upto(prompt, n), false, st), SYNC_INTERRUPTED)
      case SyncError(Nothing) => SyncResult(INVALID, 1)
      case SyncError(OfSession(n)) => SyncResult(Session(Upto(s.tokens, n), false, s.state), 1)
      case SyncError(OfPrompt(n)) => SyncResult(Session(Upto(prompt, n), false, st), 1)
  }

  /** Tokens a successful synchronisation evaluates. */
  function SyncCost(s: Session, prompt: seq<int>): nat {
    if Extends(s, prompt) then |prompt| - |s.tokens| else |prompt|
  }

  /** The session holds a beginning of the transcript and nothing else. */
  ghost predicate Holds(s: Session, transcript: seq<int>) {
    s.tokens <= transcript
  }

  /** A state that is not that of its tokens survives every synchronisation that extends it. */
  lemma MixedStays(s: Session, prompt: seq<int>, ctx: int)
    requires s.state.Mixed? && s.tokens <= prompt && 0 < |prompt| < ctx
    ensures Sync(s, prompt, ctx, Synced) == SyncResult(Session(prompt, true, Mixed), 0)
  {
  }

  lemma HoldsMore(s: Session, transcript: seq<int>, more: seq<int>)
    requires Holds(s, transcript)
    ensures Holds(s, transcript + more)
    ensures SyncCost(s, transcript + more) == |transcript + more| - if s.state.Cut? then 0 else |s.tokens|
  {
    assert (transcript + more)[..|s.tokens|] == transcript[..|s.tokens|];
  }

  /** Whatever the reply, a session that held the prompt still does; success needs nothing. */
  lemma SyncHolds(s: Session, prompt: seq<int>, ctx: int, reply: SyncReply)
    ensures Holds(s, prompt) ==> Holds(Sync(s, prompt, ctx, reply).session, prompt)
    ensures Sync(s, prompt, ctx, reply).rc == 0
        ==> Sync(s, prompt, ctx, reply).session.tokens == prompt && |prompt| < ctx
            && Sync(s, prompt, ctx, reply).session.ready && !Sync(s, prompt, ctx, reply).session.state.Cut?
    ensures s.state.Intact? ==> Sync(s, prompt, ctx, reply).session.state.Intact?
  {
  }
}
