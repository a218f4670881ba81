/**
 Where the decode loop stops, and what it commits, said by the tokens alone.

 A pass commits the longest beginning of its block that nothing cuts short; `Cut` lists
 the reasons in the order in which they count.  From this follows what every whole run
 commits: no token behind one that ended the message, no stop token, and forced lines
 from their beginning to their end.
 */
module LoopExits {
  import opened Strings
  import opened AgentSession
  import opened DecodeLoop

  /** The stream state after the first `k` tokens of a block. */
  function At<S>(env: Env<S>, s0: S, block: seq<int>, k: nat): S
    requires k <= |block|
  {
    After(env, s0, block[..k])
  }

  lemma AtNext<S>(env: Env<S>, s0: S, block: seq<int>, k: nat)
    requires k < |block|
    ensures At(env, s0, block, k + 1) == env.step(At(env, s0, block, k), block[k])
  {
    assert block[..k + 1][..k] == block[..k];
  }

  function Repeat(o: Origin, n: nat): seq<Origin> {
    seq(n, i => o)
  }

  /** What a turn has committed after tokens produced in one mode. */
  function Sampling<S>(t: Turn<S>, toks: seq<int>, greedy: bool): (seq<int>, seq<Origin>, nat) {
    (t.transcript + toks, t.origins + Repeat(Sampled(greedy), |toks|), t.generated + |toks|)
  }

  /** What a turn has committed. */
  function Done<S>(t: Turn<S>): (seq<int>, seq<Origin>, nat) {
    (t.transcript, t.origins, t.generated)
  }

  /** How much of the forced line is committed. */
  function ForcedPart<S>(env: Env<S>, failsAt: nat): seq<int> {
    if failsAt < |env.upto| then env.upto[..failsAt + 1] else env.upto
  }

  function Forcing<S>(t: Turn<S>, toks: seq<int>): (seq<int>, seq<Origin>, nat) {
    (t.transcript + toks, t.origins + Repeat(Forced, |toks|), t.generated + |toks|)
  }

  lemma {:induction false} ForceCommits<S>(env: Env<S>, t: Turn<S>, toks: seq<int>, failsAt: nat)
    ensures var r := Force(env, t, toks, failsAt);
            var part := if failsAt < |toks| then toks[..failsAt + 1] else toks;
            && Done(r.turn) == Forcing(t, part)
            && r.exit == (if failsAt < |toks| then Failed else Again)
            && r.turn.stream == After(env, t.stream, part)
    decreases |toks|
  {
    var part := if failsAt < |toks| then toks[..failsAt + 1] else toks;
    if toks == [] {
      ForcingNothing(t);
    } else {
      hide After, Forcing;
      var c := Commit(env, t, toks[0], Forced);
      AfterCons(env, t.stream, part);
      ForcingCons(env, t, part);
      ForcedTail(toks, failsAt);
      if failsAt == 0 {
        ForcingNothing(c);
        AfterNothing(env, c.stream);
      } else {
        var u := c.(session := Eval(c.session, toks[0]));
        ForcingAlike(c, u, part[1..]);
        ForceCommits(env, u, toks[1..], failsAt - 1);
      }
    }
  }

  lemma ForcedTail(toks: seq<int>, failsAt: nat)
    requires toks != []
    ensures var part := if failsAt < |toks| then toks[..failsAt + 1] else toks;
            && part != [] && part[0] == toks[0]
            && (failsAt == 0 ==> part[1..] == [])
            && (failsAt > 0 ==>
                  part[1..] == if failsAt - 1 < |toks[1..]| then toks[1..][..failsAt] else toks[1..])
  {
  }

  lemma ForcingAlike<S>(t: Turn<S>, u: Turn<S>, toks: seq<int>)
    requires Done(t) == Done(u)
    ensures Forcing(t, toks) == Forcing(u, toks)
  {
  }

  lemma ForcingNothing<S>(t: Turn<S>)
    ensures Forcing(t, []) == Done(t)
  {
    assert t.transcript + [] == t.transcript && t.origins + Repeat(Forced, 0) == t.origins;
  }

  lemma ForcingCons<S>(env: Env<S>, t: Turn<S>, toks: seq<int>)
    requires toks != []
    ensures Forcing(Commit(env, t, toks[0], Forced), toks[1..]) == Forcing(t, toks)
  {
    assert t.transcript + [toks[0]] + toks[1..] == t.transcript + toks;
    assert t.origins + [Forced] + Repeat(Forced, |toks| - 1) == t.origins + Repeat(Forced, |toks|);
  }

  /** Reading the first token and then the others. */
  lemma {:induction false} AfterCons<S>(env: Env<S>, s: S, toks: seq<int>)
    requires toks != []
    ensures After(env, s, toks) == After(env, env.step(s, toks[0]), toks[1..])
    decreases |toks|
  {
    var n := |toks| - 1;
    if n > 0 {
      AfterCons(env, s, toks[..n]);
      assert toks[..n][1..] == toks[1..][..n - 1];
    } else {
      assert toks[..n] == [] && toks[1..] == [];
    }
  }

  lemma {:induction false} AfterAppend<S>(env: Env<S>, s: S, a: seq<int>, b: seq<int>)
    ensures After(env, s, a + b) == After(env, After(env, s, a), b)
    decreases |b|
  {
    var n := |b| - 1;
    if b == [] {
      assert a + b == a;
    } else {
      AfterAppend(env, s, a, b[..n]);
      assert (a + b)[..|a + b| - 1] == a + b[..n];
    }
  }

  // ------------------------------------------------------------------------------------
  // One pass
  // ------------------------------------------------------------------------------------

  /** Nothing cuts the block short before its token `n`. */
  ghost predicate Uncut<S>(env: Env<S>, t: Turn<S>, pass: Pass, n: nat) {
    var block := pass.Block();
    && n <= |block|
    && (forall k :: 0 <= k < n ==>
          t.generated + k < env.maxTokens && !env.isStop(block[k]) && pass.replaceAt != k)
    && (forall k :: 0 < k < n ==>
          env.verdict(At(env, t.stream, block, k)) == Continue
          && env.greedy(At(env, t.stream, block, k)) == env.greedy(t.stream))
  }

  /** Why a block is cut behind its first `n` tokens. */
  datatype Why =
    | ByVerdict(why: Verdict)     // the last token ended the message
    | ByMode                      // the rest was proposed in the wrong mode
    | ByEnd                       // no tokens left, or no room for more
    | ByStop                      // the next token is a stop token
    | ByLine                      // the next token gives way to the forced line

  ghost predicate Cut<S>(env: Env<S>, t: Turn<S>, pass: Pass, n: nat, why: Why) {
    var block := pass.Block();
    && Uncut(env, t, pass, n)
    && var s := At(env, t.stream, block, n);
       var ended := n > 0 && env.verdict(s) != Continue;
       var turned := 0 < n < |block| && env.greedy(s) != env.greedy(t.stream);
       var full := n == |block| || t.generated + n >= env.maxTokens;
       match why
       case ByVerdict(v) => ended && v == env.verdict(s)
       case ByMode => !ended && turned
       case ByEnd => !ended && !turned && full
       case ByStop => !ended && !turned && !full && env.isStop(block[n])
       case ByLine => !ended && !turned && !full && !env.isStop(block[n]) && pass.replaceAt == n
  }

  /** What a pass cut so leaves. */
  ghost predicate Leaves<S>(env: Env<S>, t: Turn<S>, pass: Pass, n: nat, why: Why, r: Result<S>)
    requires n <= |pass.Block()|
  {
    var toks := pass.Block()[..n];
    var greedy := env.greedy(t.stream);
    var fits := |env.upto| <= env.maxTokens - (t.generated + n);
    var lined := why.ByLine? && fits;
    var whole := pass.forceFailsAt >= |env.upto|;
    && (!lined ==> Done(r.turn) == Sampling(t, toks, greedy) && r.turn.stream == After(env, t.stream, toks))
    && (lined ==>
          var part := ForcedPart(env, pass.forceFailsAt);
          && r.turn.transcript == t.transcript + toks + part
          && r.turn.origins == t.origins + Repeat(Sampled(greedy), n) + Repeat(Forced, |part|)
          && r.turn.generated == t.generated + n + |part|
          && r.turn.stream == After(env, t.stream, toks + part))
    && match why
       case ByVerdict(v) => r.exit == ToolStop(v)
       case ByMode => r.exit == if pass.reEvalFails then Failed else Again
       case ByEnd => r.exit == Again
       case ByStop => r.exit == StopInBlock
       case ByLine => r.exit == if fits && whole then Again else Failed
  }

  lemma SamplingNothing<S>(t: Turn<S>, greedy: bool)
    ensures Sampling(t, [], greedy) == Done(t)
  {
    assert t.transcript + [] == t.transcript && t.origins + Repeat(Sampled(greedy), 0) == t.origins;
  }

  /** One more token behind those already committed. */
  lemma SamplingMore<S>(env: Env<S>, t: Turn<S>, c: Turn<S>, block: seq<int>, k: nat, greedy: bool)
    requires k < |block| && Done(c) == Sampling(t, block[..k], greedy)
    ensures Done(Commit(env, c, block[k], Sampled(greedy))) == Sampling(t, block[..k + 1], greedy)
  {
    assert block[..k + 1] == block[..k] + [block[k]];
    assert t.transcript + block[..k] + [block[k]] == t.transcript + block[..k + 1];
    assert t.origins + Repeat(Sampled(greedy), k) + [Sampled(greedy)]
        == t.origins + Repeat(Sampled(greedy), k + 1);
  }

  /** The forced line behind `n` tokens of the block. */
  lemma ReplaceLeaves<S>(env: Env<S>, t: Turn<S>, c: Turn<S>, pass: Pass, pos: nat, n: nat)
    requires n <= |pass.Block()| && Done(c) == Sampling(t, pass.Block()[..n], env.greedy(t.stream))
    requires c.stream == At(env, t.stream, pass.Block(), n)
    ensures Leaves(env, t, pass, n, ByLine, Replace(env, c, pass, pos))
  {
    hide Force, Rewind;
    var u := RewindTo(env, c, pos, pass.rewindFails);
    ForceCommits(env, u, env.upto, pass.forceFailsAt);
    AfterAppend(env, t.stream, pass.Block()[..n], ForcedPart(env, pass.forceFailsAt));
  }

  /** The pass so far: `ti` tokens committed, nothing to stop for. */
  ghost predicate Underway<S>(env: Env<S>, t: Turn<S>, c: Turn<S>, pass: Pass, ti: nat) {
    var block := pass.Block();
    && Uncut(env, t, pass, ti)
    && Done(c) == Sampling(t, block[..ti], env.greedy(t.stream)) && c.stream == At(env, t.stream, block, ti)
    && (ti > 0 ==> env.verdict(c.stream) == Continue)
    && (0 < ti < |block| ==> env.greedy(c.stream) == env.greedy(t.stream))
  }

  lemma {:induction false} AbsorbCut<S>(env: Env<S>, t: Turn<S>, c: Turn<S>, pass: Pass, start: nat, ti: nat)
      returns (n: nat, why: Why)
    requires ti <= |pass.Block()| && Underway(env, t, c, pass, ti)
    ensures Cut(env, t, pass, n, why)
    ensures Leaves(env, t, pass, n, why, Absorb(env, c, pass, start, ti, env.greedy(t.stream)))
    decreases |pass.Block()| - ti
  {
    hide Replace, Rewind, After;
    var block, greedy := pass.Block(), env.greedy(t.stream);
    n := ti;
    if ti == |block| || c.generated >= env.maxTokens {
      why := ByEnd;
    } else if env.isStop(block[ti]) {
      why := ByStop;
    } else if pass.replaceAt == ti {
      why := ByLine;
      ReplaceLeaves(env, t, c, pass, start + ti, ti);
    } else {
      var d := Commit(env, c, block[ti], Sampled(greedy));
      SamplingMore(env, t, c, block, ti, greedy);
      AtNext(env, t.stream, block, ti);
      if env.verdict(d.stream) != Continue {
        n, why := ti + 1, ByVerdict(env.verdict(d.stream));
      } else if ti + 1 < |block| && env.greedy(d.stream) != greedy {
        n, why := ti + 1, ByMode;
      } else {
        n, why := AbsorbCut(env, t, d, pass, start, ti + 1);
      }
    }
  }

  lemma CutLast<S>(env: Env<S>, t: Turn<S>, pass: Pass, n: nat, why: Why, m: nat)
    requires Cut(env, t, pass, n, why) && Uncut(env, t, pass, m)
    ensures m <= n
  {
    hide After;
    if n < m {
      UncutAt(env, t, pass, m, n);
    }
  }

  lemma UncutAt<S>(env: Env<S>, t: Turn<S>, pass: Pass, m: nat, k: nat)
    requires Uncut(env, t, pass, m) && k < m
    ensures t.generated + k < env.maxTokens && !env.isStop(pass.Block()[k]) && pass.replaceAt != k
    ensures k > 0 ==> env.verdict(At(env, t.stream, pass.Block(), k)) == Continue
                      && env.greedy(At(env, t.stream, pass.Block(), k)) == env.greedy(t.stream)
  {
    hide After;
  }

  /** There is only one place, and one reason, for a pass to be cut. */
  lemma CutUnique<S>(env: Env<S>, t: Turn<S>, pass: Pass, n: nat, why: Why, m: nat, because: Why)
    requires Cut(env, t, pass, n, why) && Cut(env, t, pass, m, because)
    ensures n == m && why == because
  {
    hide After;
    CutLast(env, t, pass, n, why, m);
    CutLast(env, t, pass, m, because, n);
  }

  /**
   A pass that samples no stop token and evaluates commits exactly the beginning of its
   block that nothing cuts short, and leaves the loop for exactly the reason of the cut.
   */
  lemma PassCut<S>(env: Env<S>, t: Turn<S>, pass: Pass) returns (n: nat, why: Why)
    requires !env.isStop(pass.sampled) && !pass.evalFails
    ensures Cut(env, t, pass, n, why) && Leaves(env, t, pass, n, why, DoPass(env, t, pass))
  {
    hide Absorb;
    var u := t.(session := EvalBlock(t.session, pass.Block()));
    SamplingNothing(t, env.greedy(t.stream));
    assert pass.Block()[..0] == [];
    n, why := AbsorbCut(env, t, u, pass, |t.session.tokens|, 0);
  }

  /** A pass that samples a stop token, or fails to evaluate, commits nothing. */
  lemma PassWithout<S>(env: Env<S>, t: Turn<S>, pass: Pass)
    requires env.isStop(pass.sampled) || pass.evalFails
    ensures var r := DoPass(env, t, pass);
            && Done(r.turn) == Done(t) && r.turn.stream == t.stream
            && r.exit == if env.isStop(pass.sampled) then StopToken else Failed
  {
  }

  // ------------------------------------------------------------------------------------
  // Whole runs
  // ------------------------------------------------------------------------------------

  /** The tokens committed since the transcript was `base`. */
  function Since<S>(base: seq<int>, t: Turn<S>): seq<int>
    requires |base| <= |t.transcript|
  {
    t.transcript[|base|..]
  }

  /**
   `line[i]` is the place of a forced token in the forced line: such tokens stand in
   order behind one another, and go on to the end of the line unless the run failed.
   */
  ghost predicate InLine(upto: seq<int>, toks: seq<int>, origins: seq<Origin>, line: seq<nat>, failed: bool) {
    && |toks| == |origins| == |line|
    && forall i :: 0 <= i < |toks| && origins[i].Forced? ==> InPlace(upto, toks, origins, line, failed, i)
  }

  ghost predicate InPlace(upto: seq<int>, toks: seq<int>, origins: seq<Origin>, line: seq<nat>, failed: bool, i: nat)
    requires i < |toks| == |origins| == |line|
  {
    && line[i] < |upto| && toks[i] == upto[line[i]]
    && (line[i] > 0 ==> i > 0 && origins[i - 1].Forced? && line[i - 1] == line[i] - 1)
    && (line[i] + 1 < |upto| ==>
          if i + 1 < |toks| then origins[i + 1].Forced? && line[i + 1] == line[i] + 1 else failed)
  }

  ghost predicate ForcedLines(upto: seq<int>, toks: seq<int>, origins: seq<Origin>, failed: bool) {
    exists line :: InLine(upto, toks, origins, line, failed)
  }

  /** What the tokens of a message look like when it is over, or at the head of the loop. */
  ghost predicate Stopped<S>(env: Env<S>, s0: S, base: seq<int>, t: Turn<S>, exit: Exit) {
    && base <= t.transcript && |t.origins| == |Since(base, t)|
    && t.stream == After(env, s0, Since(base, t))
    && var toks := Since(base, t);
       var last := |toks| - 1;
       // no sampled stop token is committed
       && (forall i :: 0 <= i < |toks| && t.origins[i].Sampled? ==> !env.isStop(toks[i]))
       // nothing is committed behind a token that ended the message
       && (forall i :: 0 <= i < last && t.origins[i].Sampled? ==>
             env.verdict(After(env, s0, toks[..i + 1])) == Continue)
       // the message ends with such a token, or for another reason
       && (last >= 0 && t.origins[last].Sampled? && env.verdict(t.stream) != Continue
           ==> exit == ToolStop(env.verdict(t.stream)))
       && (exit.ToolStop? ==> last >= 0 && t.origins[last].Sampled? && exit.why == env.verdict(t.stream)
                              && exit.why != Continue)
       && ForcedLines(env.upto, toks, t.origins, exit.Failed?)
  }

  /** What stands in place stays in place when anything is appended. */
  lemma PlaceStays(upto: seq<int>, toks: seq<int>, origins: seq<Origin>, line: seq<nat>, failed: bool, i: nat,
                   toks': seq<int>, origins': seq<Origin>, line': seq<nat>)
    requires i < |toks| == |origins| == |line| && |toks'| == |origins'| == |line'|
    requires toks <= toks' && origins <= origins' && line <= line'
    requires InPlace(upto, toks, origins, line, false, i)
    ensures InPlace(upto, toks', origins', line', failed, i)
  {
  }

  lemma LinesSampled(upto: seq<int>, toks: seq<int>, origins: seq<Origin>, more: seq<int>, greedy: bool)
    requires ForcedLines(upto, toks, origins, false)
    ensures ForcedLines(upto, toks + more, origins + Repeat(Sampled(greedy), |more|), false)
  {
    hide InPlace;
    var line :| InLine(upto, toks, origins, line, false);
    var zeros: seq<nat> := seq(|more|, i => 0);
    var toks', origins', line' := toks + more, origins + Repeat(Sampled(greedy), |more|), line + zeros;
    forall i | 0 <= i < |toks'| && origins'[i].Forced? ensures InPlace(upto, toks', origins', line', false, i) {
      assert i < |toks| && origins[i].Forced?;
      PlaceStays(upto, toks, origins, line, false, i, toks', origins', line');
    }
    assert InLine(upto, toks', origins', line', false);
  }

  lemma LinesForced(upto: seq<int>, toks: seq<int>, origins: seq<Origin>, part: seq<int>, failed: bool)
    requires ForcedLines(upto, toks, origins, false)
    requires part <= upto && (part != [] && part != upto ==> failed)
    ensures ForcedLines(upto, toks + part, origins + Repeat(Forced, |part|), failed)
  {
    hide InPlace;
    var line :| InLine(upto, toks, origins, line, false);
    var places: seq<nat> := seq(|part|, i requires 0 <= i < |part| => i);
    var toks', origins', line' := toks + part, origins + Repeat(Forced, |part|), line + places;
    forall i | 0 <= i < |toks'| && origins'[i].Forced? ensures InPlace(upto, toks', origins', line', failed, i) {
      if i < |toks| {
        assert origins'[i] == origins[i];
        PlaceStays(upto, toks, origins, line, failed, i, toks', origins', line');
      } else {
        PlaceNew(upto, toks, origins, line, part, places, failed, i - |toks|);
      }
    }
    assert InLine(upto, toks', origins', line', failed);
  }

  lemma PlaceNew(upto: seq<int>, toks: seq<int>, origins: seq<Origin>, line: seq<nat>, part: seq<int>,
                 places: seq<nat>, failed: bool, k: nat)
    requires |toks| == |origins| == |line| && |places| == |part| && part <= upto && k < |part|
    requires part != upto ==> failed
    requires forall j :: 0 <= j < |part| ==> places[j] == j
    ensures InPlace(upto, toks + part, origins + Repeat(Forced, |part|), line + places, failed, |toks| + k)
  {
    assert part[k] == upto[k];
    assert k > 0 ==> (line + places)[|toks| + k - 1] == places[k - 1];
    assert k + 1 < |part| ==> (line + places)[|toks| + k + 1] == places[k + 1];
  }

  /** Sampled tokens, and a forced line from its beginning on, keep the forced lines in order. */
  lemma LinesExtend(upto: seq<int>, toks: seq<int>, origins: seq<Origin>, more: seq<int>, greedy: bool,
                    part: seq<int>, failed: bool)
    requires ForcedLines(upto, toks, origins, false)
    requires part <= upto && (part != [] && part != upto ==> failed)
    ensures ForcedLines(upto, toks + more + part,
                        origins + Repeat(Sampled(greedy), |more|) + Repeat(Forced, |part|), failed)
  {
    hide ForcedLines, Repeat;
    LinesSampled(upto, toks, origins, more, greedy);
    LinesForced(upto, toks + more, origins + Repeat(Sampled(greedy), |more|), part, failed);
  }

  /** The sampled part of a pass, token by token. */
  lemma BlockTokens<S>(env: Env<S>, s0: S, base: seq<int>, t: Turn<S>, pass: Pass, n: nat, k: nat)
    requires base <= t.transcript && t.stream == After(env, s0, Since(base, t))
    requires Uncut(env, t, pass, n) && k < n
    ensures var toks := Since(base, t) + pass.Block()[..n];
            var i := |Since(base, t)| + k;
            && toks[i] == pass.Block()[k] && !env.isStop(toks[i])
            && After(env, s0, toks[..i + 1]) == At(env, t.stream, pass.Block(), k + 1)
            && (k + 1 < n ==> env.verdict(After(env, s0, toks[..i + 1])) == Continue)
  {
    hide After;
    var a, b := Since(base, t), pass.Block();
    UncutAt(env, t, pass, n, k);
    assert (a + b[..n])[..|a| + k + 1] == a + b[..k + 1];
    AfterAppend(env, s0, a, b[..k + 1]);
    if k + 1 < n {
      UncutAt(env, t, pass, n, k + 1);
    }
  }

  /** What a pass appends, and what the stream then is. */
  lemma PassAppends<S>(env: Env<S>, s0: S, base: seq<int>, t: Turn<S>, pass: Pass, n: nat, why: Why, r: Result<S>)
      returns (part: seq<int>)
    requires base <= t.transcript && |t.origins| == |Since(base, t)| && t.stream == After(env, s0, Since(base, t))
    requires n <= |pass.Block()| && Leaves(env, t, pass, n, why, r)
    ensures base <= r.turn.transcript && |r.turn.origins| == |Since(base, r.turn)|
    ensures Since(base, r.turn) == Since(base, t) + pass.Block()[..n] + part
    ensures r.turn.origins == t.origins + Repeat(Sampled(env.greedy(t.stream)), n) + Repeat(Forced, |part|)
    ensures r.turn.stream == After(env, s0, Since(base, r.turn))
    ensures part <= env.upto && (part != [] && part != env.upto ==> r.exit.Failed?)
    ensures part != [] ==> r.exit.Failed? || r.exit.Again?
  {
    hide After;
    var toks := pass.Block()[..n];
    var fits := |env.upto| <= env.maxTokens - (t.generated + n);
    part := if why.ByLine? && fits then ForcedPart(env, pass.forceFailsAt) else [];
    assert t.transcript == base + Since(base, t);
    assert t.transcript + toks + [] == t.transcript + toks && toks + [] == toks;
    assert Repeat(Forced, 0) == [];
    assert r.turn.transcript == base + (Since(base, t) + toks + part);
    assert Since(base, t) + (toks + part) == Since(base, t) + toks + part;
    AfterAppend(env, s0, Since(base, t), toks + part);
  }

  lemma PassStopped<S>(env: Env<S>, s0: S, base: seq<int>, t: Turn<S>, pass: Pass)
    requires Stopped(env, s0, base, t, Again)
    ensures Stopped(env, s0, base, DoPass(env, t, pass).turn, DoPass(env, t, pass).exit)
  {
    hide After, DoPass, InLine;
    var r := DoPass(env, t, pass);
    if env.isStop(pass.sampled) || pass.evalFails {
      PassWithout(env, t, pass);
      LinesWeaken(env.upto, Since(base, t), t.origins);
    } else {
      var n, why := PassCut(env, t, pass);
      StoppedCut(env, s0, base, t, pass, n, why, r);
    }
  }

  lemma LinesWeaken(upto: seq<int>, toks: seq<int>, origins: seq<Origin>)
    requires ForcedLines(upto, toks, origins, false)
    ensures ForcedLines(upto, toks, origins, true)
  {
    var line :| InLine(upto, toks, origins, line, false);
    assert InLine(upto, toks, origins, line, true);
  }

  lemma StoppedCut<S>(env: Env<S>, s0: S, base: seq<int>, t: Turn<S>, pass: Pass, n: nat, why: Why, r: Result<S>)
    requires Stopped(env, s0, base, t, Again) && Cut(env, t, pass, n, why) && Leaves(env, t, pass, n, why, r)
    ensures Stopped(env, s0, base, r.turn, r.exit)
  {
    hide After, InLine, Leaves, ForcedLines, Cut;
    CutUncut(env, t, pass, n, why);
    var part := PassAppends(env, s0, base, t, pass, n, why, r);
    var a, b := Since(base, t), pass.Block()[..n];
    var greedy := env.greedy(t.stream);
    LinesExtend(env.upto, a, t.origins, b, greedy, part, r.exit.Failed?);
    var toks := Since(base, r.turn);
    forall i | 0 <= i < |toks| && r.turn.origins[i].Sampled? ensures !env.isStop(toks[i]) {
      if i >= |a| {
        BlockTokens(env, s0, base, t, pass, n, i - |a|);
      }
    }
    forall i | 0 <= i < |toks| - 1 && r.turn.origins[i].Sampled?
      ensures env.verdict(After(env, s0, toks[..i + 1])) == Continue
    {
      InnerContinues(env, s0, base, t, pass, n, why, r, part, i);
    }
    LastEnds(env, s0, base, t, pass, n, why, r, part);
  }

  lemma InnerContinues<S>(env: Env<S>, s0: S, base: seq<int>, t: Turn<S>, pass: Pass, n: nat, why: Why, r: Result<S>,
                          part: seq<int>, i: nat)
    requires Stopped(env, s0, base, t, Again) && Cut(env, t, pass, n, why) && Leaves(env, t, pass, n, why, r)
    requires |r.turn.transcript| == |t.transcript| + n + |part|
    requires i + 1 < |Since(base, t)| + n + |part|
    requires (t.origins + Repeat(Sampled(env.greedy(t.stream)), n) + Repeat(Forced, |part|))[i].Sampled?
    ensures env.verdict(After(env, s0, (Since(base, t) + pass.Block()[..n] + part)[..i + 1])) == Continue
  {
    hide After, InLine, Leaves, ForcedLines, Cut;
    CutUncut(env, t, pass, n, why);
    var a, b := Since(base, t), pass.Block()[..n];
    if i < |a| {
      assert (a + b + part)[..i + 1] == a[..i + 1];
      EarlierContinues(env, s0, base, t, i);
    } else {
      assert (a + b + part)[..i + 1] == (a + b)[..i + 1];
      BlockTokens(env, s0, base, t, pass, n, i - |a|);
      BlockGoesOn(env, t, pass, n, why, r, part, i - |a|);
    }
  }

  lemma CutUncut<S>(env: Env<S>, t: Turn<S>, pass: Pass, n: nat, why: Why)
    requires Cut(env, t, pass, n, why)
    ensures Uncut(env, t, pass, n)
  {
  }

  /** At the head of the loop no sampled token has ended the message, the last included. */
  lemma EarlierContinues<S>(env: Env<S>, s0: S, base: seq<int>, t: Turn<S>, i: nat)
    requires Stopped(env, s0, base, t, Again) && i < |Since(base, t)| && t.origins[i].Sampled?
    ensures env.verdict(After(env, s0, Since(base, t)[..i + 1])) == Continue
  {
    hide After, ForcedLines;
    var toks := Since(base, t);
    assert i + 1 == |toks| ==> toks[..i + 1] == toks;
  }

  /** A token of the block with more behind it did not end the message. */
  lemma BlockGoesOn<S>(env: Env<S>, t: Turn<S>, pass: Pass, n: nat, why: Why, r: Result<S>, part: seq<int>, k: nat)
    requires Cut(env, t, pass, n, why) && Leaves(env, t, pass, n, why, r) && k < n
    requires k + 1 == n ==> part != []
    requires |r.turn.transcript| == |t.transcript| + n + |part|
    ensures env.verdict(At(env, t.stream, pass.Block(), k + 1)) == Continue
  {
    hide After;
    if k + 1 < n {
      UncutAt(env, t, pass, n, k + 1);
    }
  }

  /** The last token and the exit agree. */
  lemma LastEnds<S>(env: Env<S>, s0: S, base: seq<int>, t: Turn<S>, pass: Pass, n: nat, why: Why, r: Result<S>,
                    part: seq<int>)
    requires Stopped(env, s0, base, t, Again) && Cut(env, t, pass, n, why) && Leaves(env, t, pass, n, why, r)
    requires base <= r.turn.transcript
    requires Since(base, r.turn) == Since(base, t) + pass.Block()[..n] + part
    requires r.turn.origins == t.origins + Repeat(Sampled(env.greedy(t.stream)), n) + Repeat(Forced, |part|)
    ensures var toks := Since(base, r.turn);
            var last := |toks| - 1;
            && (last >= 0 && r.turn.origins[last].Sampled? && env.verdict(r.turn.stream) != Continue
                ==> r.exit == ToolStop(env.verdict(r.turn.stream)))
            && (r.exit.ToolStop? ==> last >= 0 && r.turn.origins[last].Sampled?
                                     && r.exit.why == env.verdict(r.turn.stream) && r.exit.why != Continue)
  {
    hide After, InLine, ForcedLines;
    assert r.turn.transcript == base + Since(base, r.turn);
    if part == [] {
      assert pass.Block()[..n] + part == pass.Block()[..n];
      assert n == 0 ==> pass.Block()[..0] == [];
      AfterNothing(env, t.stream);
    }
  }

  lemma AfterNothing<S>(env: Env<S>, s: S)
    ensures After(env, s, []) == s
  {
  }

  /**
   Over every run: no token is committed behind a sampled one that ended the message, and
   if the last one did, the loop leaves with exactly that verdict; no sampled stop token
   is committed; and forced lines are committed from their beginning to their end, unless
   an evaluation fails.
   */
  lemma {:induction false} RunStopped<S>(env: Env<S>, s0: S, base: seq<int>, t: Turn<S>, passes: seq<Pass>)
    requires Stopped(env, s0, base, t, Again)
    ensures var r := Run(env, t, passes);
            Stopped(env, s0, base, r.turn, r.exit)
            && (r.exit.NoRoom? ==> r.turn.generated >= env.maxTokens)
            && (r.exit.Interrupted? ==> r.turn.generated < env.maxTokens)
    decreases |passes|
  {
    hide DoPass, Since, ForcedLines;
    if t.generated < env.maxTokens && passes != [] {
      PassStopped(env, s0, base, t, passes[0]);
      var r := DoPass(env, t, passes[0]);
      PassExits(env, t, passes[0]);
      if r.exit.Again? {
        RunStopped(env, s0, base, r.turn, passes[1..]);
      }
    }
  }

  /** A pass is neither out of room nor interrupted: only the loop is. */
  lemma PassExits<S>(env: Env<S>, t: Turn<S>, pass: Pass)
    ensures !DoPass(env, t, pass).exit.NoRoom? && !DoPass(env, t, pass).exit.Interrupted?
  {
    hide DoPass, Cut;
    if env.isStop(pass.sampled) || pass.evalFails {
      PassWithout(env, t, pass);
    } else {
      var n, why := PassCut(env, t, pass);
      CutInside(env, t, pass, n, why);
    }
  }

  lemma CutInside<S>(env: Env<S>, t: Turn<S>, pass: Pass, n: nat, why: Why)
    requires Cut(env, t, pass, n, why)
    ensures n <= |pass.Block()|
  {
  }

  /** A message starts with nothing committed. */
  lemma FreshStopped<S>(env: Env<S>, t: Turn<S>)
    requires t.origins == []
    ensures Stopped(env, t.stream, t.transcript, t, Again)
  {
    var line: seq<nat> := [];
    assert InLine(env.upto, Since(t.transcript, t), t.origins, line, false);
  }

  lemma StoppedBegins<S>(env: Env<S>, s0: S, base: seq<int>, t: Turn<S>, exit: Exit)
    requires Stopped(env, s0, base, t, exit)
    ensures base <= t.transcript
  {
  }
}
