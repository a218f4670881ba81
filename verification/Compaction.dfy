/**
 Context compaction: a private exchange with the model produces a summary, and the
 transcript is rebuilt from the system prompt, the summary and a recent tail.

 While the exchange runs, the session holds text that is not part of the conversation;
 the theorems say that no exit leaves any of it behind.
 */
module Compaction {
  import opened Strings
  import opened AgentSession

  /** ds4_vision_span: the tokens an image stands for, and the image. */
  datatype Image = Image(start: nat, count: nat, id: int)

  datatype Agent = Agent(session: Session, transcript: seq<int>, images: seq<Image>)

  /** What ends the summary once the model has written it. */
  datatype Ending = ControlToken | Interrupt | EvalFails

  /** Everything compaction does not decide itself. */
  datatype Request = Request(
    ctx: int,
    sys: seq<int>,                // the system prompt
    ask: seq<int>,                // the private request and the assistant prefix
    firstSync: SyncReply,
    summary: seq<int>,            // the tokens the model writes before the ending
    ending: Ending,
    emptyText: bool,              // the summary has no text
    message: seq<int>,            // the summary as a system message
    userId: int,                  // the user marker, or negative
    noMemory: bool,
    rebuild: SyncReply,
    bash: seq<int>)               // an update on running jobs, possibly empty

  datatype Result =
    | NothingToDo | NoRoom | FirstSyncFailed | SummaryInterrupted | SummaryFailed
    | EmptySummary | OutOfMemory | RebuildFailed
    | Compacted(tailStart: nat)

  datatype Outcome = Outcome(agent: Agent, result: Result)

  /** AGENT_COMPACT_TAIL_DIVISOR, AGENT_COMPACT_TAIL_CAP_TOKENS, AGENT_COMPACT_SUMMARY_MAX_TOKENS */
  const TAIL_DIVISOR := 10
  const TAIL_CAP := 50000
  const SUMMARY_MAX := 4096
  const MIN_SUMMARY_ROOM := 256

  // ------------------------------------------------------------------------------------
  // The tail
  // ------------------------------------------------------------------------------------

  /** A tenth of the context, at most the cap and at least one token. */
  function TailBudget(ctx: int): (r: int)
    ensures 1 <= r <= TAIL_CAP
    ensures r > 1 ==> 10 * r <= ctx
    ensures r < TAIL_CAP ==> ctx < 10 * (r + 1)
  {
    var b := if ctx / TAIL_DIVISOR > TAIL_CAP then TAIL_CAP else ctx / TAIL_DIVISOR;
    if b < 1 then 1 else b
  }

  function TailTarget(bottom: int, sysLen: int, ctx: int): int {
    var target := bottom - TailBudget(ctx);
    if target < sysLen then sysLen else target
  }

  /** Where the verbatim tail starts, said without a loop. */
  ghost predicate IsTailStart(t: seq<int>, sysLen: nat, ctx: int, userId: int, i: int) {
    var target := TailTarget(|t|, sysLen, ctx);
    && target <= i < |t|
    && (userId >= 0 && (exists k :: target <= k < |t| && t[k] == userId)
        ==> t[i] == userId && forall k :: target <= k < i ==> t[k] != userId)
    && (userId < 0 || (forall k :: target <= k < |t| ==> t[k] != userId) ==> i == target)
  }

  function FirstUser(t: seq<int>, userId: int, i: nat): (r: Option<nat>)
    requires i <= |t|
    ensures r.Some? ==> i <= r.value < |t| && t[r.value] == userId
    ensures r.Some? ==> forall k :: i <= k < r.value ==> t[k] != userId
    ensures r.None? ==> forall k :: i <= k < |t| ==> t[k] != userId
    decreases |t| - i
  {
    if i == |t| then None else if t[i] == userId then Some(i) else FirstUser(t, userId, i + 1)
  }

  function TailStart(t: seq<int>, sysLen: nat, ctx: int, userId: int): (r: nat)
    requires sysLen < |t|
    ensures IsTailStart(t, sysLen, ctx, userId, r)
  {
    var target := TailTarget(|t|, sysLen, ctx);
    if userId < 0 then target
    else
      var u := FirstUser(t, userId, target);
      if u.Some? then u.value else target
  }

  /** agent_compact_tail_start */
  method CompactTailStart(t: seq<int>, sysLen: nat, ctx: int, userId: int) returns (r: nat)
    requires sysLen < |t|
    ensures r == TailStart(t, sysLen, ctx, userId)
  {
    var target := TailTarget(|t|, sysLen, ctx);
    if userId < 0 {
      return target;
    }
    var i := target;
    while i < |t|
      invariant target <= i <= |t|
      invariant FirstUser(t, userId, target) == FirstUser(t, userId, i)
    {
      if t[i] == userId {
        return i;
      }
      i := i + 1;
    }
    return target;
  }

  /** The budget's edge is the first offset behind the system prompt from which it suffices. */
  lemma TargetIsEdge(bottom: int, sysLen: int, ctx: int, k: int)
    ensures TailTarget(bottom, sysLen, ctx) <= k <==> sysLen <= k && bottom - k <= TailBudget(ctx)
  {
  }

  /** The tail is recent, within budget, and never reaches into the system prompt. */
  lemma TailWithinBudget(t: seq<int>, sysLen: nat, ctx: int, userId: int)
    requires sysLen < |t|
    ensures var s := TailStart(t, sysLen, ctx, userId);
            sysLen <= s < |t| && |t| - s <= TailBudget(ctx)
  {
  }

  // ------------------------------------------------------------------------------------
  // Images
  // ------------------------------------------------------------------------------------

  /** The image lies wholly inside the tail. */
  predicate Kept(m: Image, tailStart: nat, bottom: nat) {
    tailStart <= m.start && m.start + m.count <= bottom
  }

  function Relocated(m: Image, tailStart: nat, dst: nat): Image
    requires tailStart <= m.start
  {
    m.(start := dst + m.start - tailStart)
  }

  /** The kept images at their new places, in order. */
  function Relocate(images: seq<Image>, tailStart: nat, bottom: nat, dst: nat): seq<Image> {
    if images == [] then []
    else
      (if Kept(images[0], tailStart, bottom) then [Relocated(images[0], tailStart, dst)] else [])
      + Relocate(images[1..], tailStart, bottom, dst)
  }

  /** One image at a time. */
  lemma RelocateOne(images: seq<Image>, i: nat, tailStart: nat, bottom: nat, dst: nat)
    requires i < |images|
    ensures Relocate(images[i..], tailStart, bottom, dst) ==
            (if Kept(images[i], tailStart, bottom) then [Relocated(images[i], tailStart, dst)] else [])
            + Relocate(images[i + 1..], tailStart, bottom, dst)
  {
    assert images[i..][0] == images[i] && images[i..][1..] == images[i + 1..];
  }

  method RelocateImages(images: seq<Image>, tailStart: nat, bottom: nat, dst: nat) returns (r: seq<Image>)
    ensures r == Relocate(images, tailStart, bottom, dst)
  {
    hide Relocate, Relocated;
    r := [];
    var i := 0;
    assert images[0..] == images;
    ghost var all := Relocate(images, tailStart, bottom, dst);
    assert r + all == all;
    while i < |images|
      invariant i <= |images|
      invariant r + Relocate(images[i..], tailStart, bottom, dst) == all
    {
      RelocateOne(images, i, tailStart, bottom, dst);
      ghost var before, rest := r, Relocate(images[i + 1..], tailStart, bottom, dst);
      if Kept(images[i], tailStart, bottom) {
        r := r + [Relocated(images[i], tailStart, dst)];
        assert before + ([Relocated(images[i], tailStart, dst)] + rest) == r + rest;
      } else {
        assert [] + rest == rest;
      }
      i := i + 1;
    }
    assert images[i..] == [] && Relocate([], tailStart, bottom, dst) == [] by {
      RelocateNone(tailStart, bottom, dst);
    }
    assert r + [] == r;
  }

  lemma RelocateNone(tailStart: nat, bottom: nat, dst: nat)
    ensures Relocate([], tailStart, bottom, dst) == []
  {
  }

  /** `n` is a kept image of `images`, moved. */
  ghost predicate Comes(images: seq<Image>, tailStart: nat, bottom: nat, dst: nat, n: Image) {
    exists k :: 0 <= k < |images| && Kept(images[k], tailStart, bottom) && n == Relocated(images[k], tailStart, dst)
  }

  /** Exactly the images wholly inside the tail are kept. */
  lemma {:induction false} RelocateExact(images: seq<Image>, tailStart: nat, bottom: nat, dst: nat, n: Image)
    ensures n in Relocate(images, tailStart, bottom, dst) <==> Comes(images, tailStart, bottom, dst, n)
  {
    if images != [] {
      var rest := images[1..];
      RelocateExact(rest, tailStart, bottom, dst, n);
      if Comes(rest, tailStart, bottom, dst, n) {
        var k :| 0 <= k < |rest| && Kept(rest[k], tailStart, bottom) && n == Relocated(rest[k], tailStart, dst);
        assert images[k + 1] == rest[k];
      }
      if Comes(images, tailStart, bottom, dst, n) {
        var k :| 0 <= k < |images| && Kept(images[k], tailStart, bottom) && n == Relocated(images[k], tailStart, dst);
        if k > 0 {
          assert rest[k - 1] == images[k];
        }
      }
    }
  }

  /** The tokens an image stands for. */
  function Slice(t: seq<int>, m: Image): seq<int>
    requires m.start + m.count <= |t|
  {
    t[m.start..m.start + m.count]
  }

  /** A moved image stands for the same tokens. */
  lemma MovedSlice(old_: seq<int>, m: Image, tailStart: nat, head: seq<int>)
    requires Kept(m, tailStart, |old_|)
    ensures var n := Relocated(m, tailStart, |head|);
            var t := head + old_[tailStart..];
            n.start + n.count <= |t| && Slice(t, n) == Slice(old_, m)
  {
  }

  /** agent_worker_images_fit_tokens */
  predicate ImagesFit(images: seq<Image>, t: seq<int>) {
    forall k :: 0 <= k < |images| ==> images[k].start + images[k].count <= |t|
  }

  /** The check before the rebuild never fails on relocated images. */
  lemma RelocatedFit(images: seq<Image>, old_: seq<int>, tailStart: nat, head: seq<int>)
    requires tailStart <= |old_|
    ensures ImagesFit(Relocate(images, tailStart, |old_|, |head|), head + old_[tailStart..])
  {
    var r := Relocate(images, tailStart, |old_|, |head|);
    forall k | 0 <= k < |r| ensures r[k].start + r[k].count <= |head + old_[tailStart..]| {
      RelocateExact(images, tailStart, |old_|, |head|, r[k]);
      var j :| 0 <= j < |images| && Kept(images[j], tailStart, |old_|) && r[k] == Relocated(images[j], tailStart, |head|);
    }
  }

  // ------------------------------------------------------------------------------------
  // The exchange and the rebuild
  // ------------------------------------------------------------------------------------

  /** agent_worker_sync_tokens on the agent's own transcript */
  function SyncAgent(a: Agent, ctx: int, reply: SyncReply): SyncResult {
    if a.images != [] && !ImagesFit(a.images, a.transcript) then SyncResult(a.session, 1)
    else Sync(a.session, a.transcript, ctx, reply)
  }

  function SummaryRoom(a: Agent, q: Request): int {
    q.ctx - |a.transcript + q.ask| - 1
  }

  function SummaryMax(a: Agent, q: Request): int {
    if SummaryRoom(a, q) < SUMMARY_MAX then SummaryRoom(a, q) else SUMMARY_MAX
  }

  /** How the summary loop ends: None when the summary is complete. */
  function SummaryStops(a: Agent, q: Request): Option<Result> {
    if |q.summary| >= SummaryMax(a, q) then None
    else
      match q.ending
      case ControlToken => None
      case Interrupt => Some(SummaryInterrupted)
      case EvalFails => Some(SummaryFailed)
  }

  /** The rebuilt transcript, before a job update. */
  function Rebuilt(a: Agent, q: Request, tailStart: nat): seq<int>
    requires tailStart <= |a.transcript|
  {
    q.sys + q.message + a.transcript[tailStart..]
  }

  /** The last part: swap in the rebuilt transcript, synchronise, or put everything back. */
  function Rebuild(a: Agent, q: Request): Outcome
    requires |q.sys| < |a.transcript|
  {
    var s := TailStart(a.transcript, |q.sys|, q.ctx, q.userId);
    var images := Relocate(a.images, s, |a.transcript|, |q.sys + q.message|);
    var b := Agent(a.session, Rebuilt(a, q, s), images);
    var r := SyncAgent(b, q.ctx, q.rebuild);
    if r.rc != 0 then Outcome(a.(session := INVALID), RebuildFailed)
    else Outcome(b.(session := r.session, transcript := b.transcript + q.bash), Compacted(s))
  }

  /** agent_worker_compact */
  function Compact(a: Agent, q: Request): Outcome {
    if |a.transcript| <= |q.sys| then Outcome(a, NothingToDo)
    else if SummaryRoom(a, q) < MIN_SUMMARY_ROOM then Outcome(a, NoRoom)
    else
      var lost := a.(session := INVALID);
      var r := Sync(a.session, a.transcript + q.ask, q.ctx, q.firstSync);
      if r.rc != 0 then Outcome(lost, FirstSyncFailed)
      else if SummaryStops(a, q).Some? then Outcome(lost, SummaryStops(a, q).value)
      else if q.emptyText then Outcome(lost, EmptySummary)
      else if a.images != [] && q.noMemory then Outcome(lost, OutOfMemory)
      else
        Rebuild(a.(session := EvalBlock(r.session, Upto(q.summary, SummaryMax(a, q)))), q)
  }

  // ------------------------------------------------------------------------------------
  // Theorems
  // ------------------------------------------------------------------------------------

  lemma RebuildSound(a: Agent, q: Request)
    requires |q.sys| < |a.transcript|
    ensures var o := Rebuild(a, q);
            Holds(o.agent.session, o.agent.transcript)
  {
    hide TailStart, Relocate;
  }

  /**
   Every exit leaves the session a beginning of the transcript: private text never
   survives as live state.  The two exits that do not touch the session keep what was.
   */
  lemma NoPrivateText(a: Agent, q: Request)
    ensures var o := Compact(a, q);
            Holds(a.session, a.transcript) || !(o.result.NothingToDo? || o.result.NoRoom?)
            ==> Holds(o.agent.session, o.agent.transcript)
  {
    hide Rebuild, SummaryStops, Sync;
    var r := Sync(a.session, a.transcript + q.ask, q.ctx, q.firstSync);
    if |a.transcript| > |q.sys| {
      if SummaryMax(a, q) >= 0 {
        RebuildSound(a.(session := EvalBlock(r.session, Upto(q.summary, SummaryMax(a, q)))), q);
      }
    }
  }

  /** Nor does compaction ever put the session on a state that is not its own. */
  lemma CompactIntact(a: Agent, q: Request)
    requires a.session.state.Intact?
    ensures Compact(a, q).agent.session.state.Intact?
  {
    hide TailStart, Relocate, SummaryStops;
  }

  // Each outcome has its own condition on the request.

  ghost predicate HasRoom(a: Agent, q: Request) {
    |a.transcript| + |q.ask| + 1 + 256 <= q.ctx
  }

  /** The model finished the summary, or wrote as much as it may. */
  ghost predicate SummaryComplete(a: Agent, q: Request) {
    || q.ending.ControlToken?
    || |q.summary| >= 4096
    || |a.transcript| + |q.ask| + 1 + |q.summary| >= q.ctx
  }

  /** The first exchange worked out and left a summary with text. */
  ghost predicate Summarised(a: Agent, q: Request) {
    q.firstSync.Synced? && SummaryComplete(a, q) && !q.emptyText
  }

  /** The rebuilt transcript is taken over by the session. */
  ghost predicate Rebuilds(a: Agent, q: Request)
    requires |q.sys| < |a.transcript|
  {
    var s := TailStart(a.transcript, |q.sys|, q.ctx, q.userId);
    q.rebuild.Synced? && |q.sys| + |q.message| + (|a.transcript| - s) < q.ctx
  }

  lemma RebuildIff(a: Agent, q: Request)
    requires |q.sys| < |a.transcript|
    ensures var r := Rebuild(a, q).result;
            && (r.Compacted? <==> Rebuilds(a, q))
            && (!r.Compacted? ==> r.RebuildFailed?)
  {
    hide Relocate, IsTailStart;
    var s := TailStart(a.transcript, |q.sys|, q.ctx, q.userId);
    TailWithinBudget(a.transcript, |q.sys|, q.ctx, q.userId);
    RelocatedFit(a.images, a.transcript, s, q.sys + q.message);
  }

  lemma RebuildsAlike(a: Agent, q: Request, s: Session)
    requires |q.sys| < |a.transcript|
    ensures Rebuilds(a.(session := s), q) <==> Rebuilds(a, q)
  {
    hide TailStart;
  }

  /**
   Compaction succeeds exactly when there is something to compact and room for a summary,
   both synchronisations and the summary work out, the summary has text, and the images
   can be copied; every refusal has its own cause, the first that applies.
   */
  lemma CompactedIff(a: Agent, q: Request)
    ensures var o := Compact(a, q);
            var work := |a.transcript| > |q.sys|;
            var ready := work && HasRoom(a, q);
            var copied := a.images == [] || !q.noMemory;
            && (o.result.NothingToDo? <==> !work)
            && (o.result.NoRoom? <==> work && !HasRoom(a, q))
            && (o.result.FirstSyncFailed? <==> ready && !q.firstSync.Synced?)
            && (o.result.SummaryInterrupted?
                <==> ready && q.firstSync.Synced? && !SummaryComplete(a, q) && q.ending.Interrupt?)
            && (o.result.SummaryFailed?
                <==> ready && q.firstSync.Synced? && !SummaryComplete(a, q) && q.ending.EvalFails?)
            && (o.result.EmptySummary?
                <==> ready && q.firstSync.Synced? && SummaryComplete(a, q) && q.emptyText)
            && (o.result.OutOfMemory? <==> ready && Summarised(a, q) && !copied)
            && (o.result.RebuildFailed? <==> ready && Summarised(a, q) && copied && !Rebuilds(a, q))
            && (o.result.Compacted? <==> ready && Summarised(a, q) && copied && Rebuilds(a, q))
            && (o.agent.session == if !ready then a.session
                                   else if o.result.Compacted? then o.agent.session else INVALID)
  {
    hide Rebuild, Rebuilds;
    var r := Sync(a.session, a.transcript + q.ask, q.ctx, q.firstSync);
    if |a.transcript| > |q.sys| && HasRoom(a, q) && Summarised(a, q) {
      var b := a.(session := EvalBlock(r.session, Upto(q.summary, SummaryMax(a, q))));
      RebuildIff(b, q);
      RebuildsAlike(a, q, b.session);
      RebuildLoses(b, q);
    }
  }

  lemma RebuildLoses(a: Agent, q: Request)
    requires |q.sys| < |a.transcript|
    ensures Rebuild(a, q).result.RebuildFailed? ==> Rebuild(a, q).agent.session == INVALID
  {
    hide TailStart, Relocate, SyncAgent;
  }

  /** Every exit but success leaves transcript and images exactly as before. */
  lemma FailureRestores(a: Agent, q: Request)
    ensures var o := Compact(a, q);
            !o.result.Compacted? ==> o.agent.transcript == a.transcript && o.agent.images == a.images
  {
    hide TailStart, Relocate, SummaryStops, Sync, SyncAgent;
  }

  /** What success means. */
  ghost predicate CompactedTo(a: Agent, q: Request, s: nat, b: Agent) {
    && |q.sys| <= s < |a.transcript| && |a.transcript| - s <= TailBudget(q.ctx)
    && IsTailStart(a.transcript, |q.sys|, q.ctx, q.userId, s)
    && b.transcript == q.sys + q.message + a.transcript[s..] + q.bash
    && b.session.tokens == q.sys + q.message + a.transcript[s..]
    && (forall n :: n in b.images <==> Comes(a.images, s, |a.transcript|, |q.sys + q.message|, n))
  }

  lemma RebuildShape(a: Agent, q: Request)
    requires |q.sys| < |a.transcript|
    ensures var o := Rebuild(a, q);
            o.result.Compacted? ==> CompactedTo(a, q, o.result.tailStart, o.agent)
  {
    hide Relocate, Comes, IsTailStart, TailStart;
    var s := TailStart(a.transcript, |q.sys|, q.ctx, q.userId);
    TailWithinBudget(a.transcript, |q.sys|, q.ctx, q.userId);
    var dst := |q.sys + q.message|;
    forall n ensures n in Relocate(a.images, s, |a.transcript|, dst) <==> Comes(a.images, s, |a.transcript|, dst, n) {
      RelocateExact(a.images, s, |a.transcript|, dst, n);
    }
  }

  /** On success: system, summary, tail and update; the session synchronised; images moved along. */
  lemma SuccessShape(a: Agent, q: Request)
    ensures var o := Compact(a, q);
            o.result.Compacted? ==> CompactedTo(a, q, o.result.tailStart, o.agent)
  {
    hide Rebuild, Sync, Comes, IsTailStart;
    var r := Sync(a.session, a.transcript + q.ask, q.ctx, q.firstSync);
    if |a.transcript| > |q.sys| && SummaryRoom(a, q) >= MIN_SUMMARY_ROOM {
      RebuildShape(a.(session := EvalBlock(r.session, Upto(q.summary, SummaryMax(a, q)))), q);
    }
  }

  /** Every image that survives stands for the same tokens as before. */
  lemma ImagesKeepTheirTokens(a: Agent, q: Request, n: Image)
    requires Compact(a, q).result.Compacted? && n in Compact(a, q).agent.images
    ensures exists k :: 0 <= k < |a.images|
              && a.images[k].id == n.id && a.images[k].start + a.images[k].count <= |a.transcript|
              && n.start + n.count <= |Compact(a, q).agent.transcript|
              && Slice(Compact(a, q).agent.transcript, n) == Slice(a.transcript, a.images[k])
  {
    hide Compact;
    SuccessShape(a, q);
    var o := Compact(a, q);
    var s := o.result.tailStart;
    var head := q.sys + q.message;
    var k :| 0 <= k < |a.images| && Kept(a.images[k], s, |a.transcript|) && n == Relocated(a.images[k], s, |head|);
    MovedSlice(a.transcript, a.images[k], s, head);
    var t := head + a.transcript[s..];
    assert o.agent.transcript == t + q.bash;
    assert (t + q.bash)[n.start..n.start + n.count] == t[n.start..n.start + n.count];
  }

  /** Throughout the exchange the session stays below the context size. */
  lemma ExchangeFits(a: Agent, q: Request, i: nat)
    requires SummaryRoom(a, q) >= MIN_SUMMARY_ROOM && i <= SummaryMax(a, q) && i <= |q.summary|
    ensures |a.transcript + q.ask + q.summary[..i]| < q.ctx
  {
  }

  // ------------------------------------------------------------------------------------
  // Compaction as the worker runs it
  // ------------------------------------------------------------------------------------

  class Compactor {
    var agent: Agent

    constructor (a: Agent)
      ensures agent == a
    {
      agent := a;
    }

    /** The loop that has the model write the summary; `stops` when it cannot go on. */
    method WriteSummary(q: Request, max: nat) returns (stops: Option<Result>)
      modifies this
      ensures stops == if |q.summary| >= max then None
                       else match q.ending
                            case ControlToken => None
                            case Interrupt => Some(SummaryInterrupted)
                            case EvalFails => Some(SummaryFailed)
      ensures agent == old(agent).(session := agent.session)
      ensures old(agent.session.ready) && !old(agent.session.state).Cut?
              ==> agent.session == EvalBlock(old(agent.session), Upto(q.summary, max))
    {
      var i := 0;
      while i < max && i < |q.summary|
        invariant i <= max && i <= |q.summary|
        invariant agent == old(agent).(session := agent.session)
        invariant old(agent.session.ready) && !old(agent.session.state).Cut?
                  ==> agent.session == EvalBlock(old(agent.session), q.summary[..i])
      {
        agent := agent.(session := Eval(agent.session, q.summary[i]));
        assert q.summary[..i + 1] == q.summary[..i] + [q.summary[i]];
        i := i + 1;
      }
      assert q.summary[..i] == Upto(q.summary, max);
      if i == max {
        return None;
      }
      match q.ending
      case ControlToken => return None;
      case Interrupt => return Some(SummaryInterrupted);
      case EvalFails => return Some(SummaryFailed);
    }

    /** The swap, the final synchronisation, and the way back. */
    method SwapIn(q: Request) returns (result: Result)
      requires |q.sys| < |agent.transcript|
      modifies this
      ensures Outcome(agent, result) == Rebuild(old(agent), q)
    {
      hide TailStart, Relocate, Sync, ImagesFit;
      var tailStart := CompactTailStart(agent.transcript, |q.sys|, q.ctx, q.userId);
      var compacted := q.sys + q.message;
      var tailDst := |compacted|;
      compacted := compacted + agent.transcript[tailStart..];
      var newImages := RelocateImages(agent.images, tailStart, |agent.transcript|, tailDst);
      var oldTranscript, oldImages := agent.transcript, agent.images;
      agent := agent.(transcript := compacted, images := newImages);
      var r := SyncAgent(agent, q.ctx, q.rebuild);
      agent := agent.(session := r.session);
      if r.rc != 0 {
        agent := Agent(INVALID, oldTranscript, oldImages);
        return RebuildFailed;
      }
      agent := agent.(transcript := agent.transcript + q.bash);
      return Compacted(tailStart);
    }

    /** agent_worker_compact */
    method Run(q: Request) returns (result: Result)
      modifies this
      ensures Outcome(agent, result) == Compact(old(agent), q)
    {
      hide Rebuild;
      if |agent.transcript| == 0 || |agent.transcript| <= |q.sys| {
        return NothingToDo;
      }
      var prompt := agent.transcript + q.ask;
      var room := q.ctx - |prompt| - 1;
      if room < MIN_SUMMARY_ROOM {
        return NoRoom;
      }
      var max := if room < SUMMARY_MAX then room else SUMMARY_MAX;
      var r := Sync(agent.session, prompt, q.ctx, q.firstSync);
      agent := agent.(session := r.session);
      if r.rc != 0 {
        agent := agent.(session := INVALID);
        return FirstSyncFailed;
      }
      SyncHolds(old(agent.session), prompt, q.ctx, q.firstSync);
      var stops := WriteSummary(q, max);
      if stops.Some? {
        agent := agent.(session := INVALID);
        return stops.value;
      }
      if q.emptyText {
        agent := agent.(session := INVALID);
        return EmptySummary;
      }
      if agent.images != [] && q.noMemory {
        agent := agent.(session := INVALID);
        return OutOfMemory;
      }
      result := SwapIn(q);
    }
  }
}
