/**
 The parser looks only at bytes it has not consumed: dropping the consumed prefix of the
 buffer changes nothing but the offsets.  Round-trip proofs use this to keep the text
 still to be parsed at offset 0.
 */
module ParserShift {
  import opened Strings
  import opened ToolCalls
  import opened ToolParser

  lemma CloseTailShift(a: string, s: string, i: nat)
    requires i <= |s|
    ensures CloseTailEnd(a + s, |a| + i) ==
            Moved(CloseTailEnd(s, i), |a|)
  {
    SkipSpaceShift(a, s, i);
    var b := SkipSpace(s, i);
    OccursAtShift(a, s, b, BAR);
    SkipSpaceShift(a, s, SkipBar(s, b));
  }

  lemma CloseTagShift(a: string, s: string, i: nat, prefix: string)
    ensures CloseTagEnd(a + s, |a| + i, prefix) ==
            Moved(CloseTagEnd(s, i, prefix), |a|)
  {
    hide CloseTailEnd;
    OccursAtShift(a, s, i, prefix);
    if OccursAt(s, i, prefix) {
      CloseTailShift(a, s, i + |prefix|);
      assert |a| + i + |prefix| == |a| + (i + |prefix|);
    }
  }

  lemma {:induction false} FindCloseTagShift(a: string, s: string, i: nat, prefix: string)
    requires i <= |s|
    ensures FindCloseTag(a + s, |a| + i, prefix) == Shift(FindCloseTag(s, i, prefix), |a|)
    decreases |s| - i
  {
    hide CloseTagEnd;
    CloseTagShift(a, s, i, prefix);
    if i < |s| {
      FindCloseTagShift(a, s, i + 1, prefix);
      assert |a| + i + 1 == |a| + (i + 1);
    }
  }

  /** The parser with the consumed bytes dropped. */
  function Rest(p: Parser): (r: Parser)
    requires p.Valid()
    ensures r.Valid()
  {
    p.(raw := p.raw[p.parsePos..], parsePos := 0, paramValueStart := 0)
  }

  lemma RestIs(p: Parser)
    requires p.Valid()
    ensures Rest(p) == p.(raw := p.raw[p.parsePos..], parsePos := 0, paramValueStart := 0)
    ensures Rest(Rest(p)) == Rest(p)
  {
    Cut(p.raw, p.parsePos);
  }

  /** Parsers that differ only in what they have consumed. */
  lemma SameRest(p: Parser, q: Parser)
    requires p.Valid() && q.Valid()
    requires p.raw[p.parsePos..] == q.raw[q.parsePos..]
    requires p.(raw := q.raw, parsePos := q.parsePos, paramValueStart := q.paramValueStart) == q
    ensures Rest(p) == Rest(q)
  {
  }

  lemma OpenedSame(p: Parser, q: Parser, tag: string, e: nat, end: nat)
    requires p.Valid() && q.Valid() && q.phase.Structural? && e <= |p.raw| && end <= |q.raw|
    requires p.(raw := q.raw, parsePos := q.parsePos, paramValueStart := q.paramValueStart) == q
    ensures var a, b := Opened(p, tag, e), Opened(q, tag, end);
            && a.(raw := b.raw, parsePos := b.parsePos, paramValueStart := b.paramValueStart) == b
            && a.parsePos == (if a.Live() then e else p.parsePos)
            && b.parsePos == (if a.Live() then end else q.parsePos)
  {
    hide ParseAttr, OpenTagIs, Parser.Valid;
  }

  lemma OpenTagRest(q: Parser, end: nat)
    requires q.Valid() && q.phase.Structural? && q.parsePos < end <= |q.raw|
    ensures Rest(OpenTag(Rest(q), end - q.parsePos)) == Rest(OpenTag(q, end))
  {
    hide Opened, Rest;
    var r, e := Rest(q), end - q.parsePos;
    RestIs(q);
    assert r.raw[0..e] == q.raw[q.parsePos..end];
    OpenedSame(r, q, q.raw[q.parsePos..end], e, end);
    DropTwice(q.raw, q.parsePos, e);
    Cut(q.raw, q.parsePos);
    SameRest(OpenTag(r, e), OpenTag(q, end));
  }

  /** A parser that closes its call and moves on, seen from there. */
  lemma RestPushed(q: Parser, e: nat)
    requires q.Valid() && q.phase.Structural? && q.parsePos + e <= |q.raw|
    ensures Rest(Push(Rest(q)).(parsePos := e)) == Rest(Push(q).(parsePos := q.parsePos + e))
    ensures Rest(Push(Rest(q)).(parsePos := e, phase := Done))
         == Rest(Push(q).(parsePos := q.parsePos + e, phase := Done))
  {
    hide Tags.Shape;
    assert Push(Rest(q)) == Rest(Push(q));
    DropTwice(q.raw, q.parsePos, e);
  }

  lemma TagEndsRest(q: Parser)
    requires q.Valid() && q.phase.Structural?
    ensures var s := q.raw[q.parsePos..];
            && FindChar(q.raw, '>', q.parsePos) == Shift(FindChar(s, '>', 0), q.parsePos)
            && CloseTagEnd(q.raw, q.parsePos, q.tags.closeToolCalls) ==
               Moved(CloseTagEnd(s, 0, q.tags.closeToolCalls), q.parsePos)
            && CloseTagEnd(q.raw, q.parsePos, q.tags.closeInvoke) ==
               Moved(CloseTagEnd(s, 0, q.tags.closeInvoke), q.parsePos)
  {
    hide FindChar, CloseTagEnd;
    var a, s := q.raw[..q.parsePos], q.raw[q.parsePos..];
    assert q.raw == a + s;
    CloseTagShift(a, s, 0, q.tags.closeToolCalls);
    CloseTagShift(a, s, 0, q.tags.closeInvoke);
    FindCharShift(a, s, '>', 0);
  }

  lemma TagStepRest(q: Parser)
    requires q.Valid() && q.phase.Structural?
    ensures TagStep(Rest(q)).Go? == TagStep(q).Go?
    ensures Rest(TagStep(Rest(q)).p) == Rest(TagStep(q).p)
  {
    hide FindChar, CloseTagEnd, OpenTag, Push, Rest;
    RestIs(q);
    TagEndsRest(q);
    var s := q.raw[q.parsePos..];
    var e := CloseTagEnd(s, 0, q.tags.closeToolCalls);
    var e' := CloseTagEnd(s, 0, q.tags.closeInvoke);
    var gt := FindChar(s, '>', 0);
    if s == "" || (e == 0 && e' == 0 && gt.None?) {
      assert TagStep(q).Wait?;
    } else if e > 0 {
      RestPushed(q, e);
    } else if e' > 0 {
      RestPushed(q, e');
    } else {
      OpenTagRest(q, q.parsePos + gt.value + 1);
    }
  }

  lemma CloseParamRest(p: Parser)
    requires p.Valid() && p.phase.ParamValue?
    ensures CloseParam(Rest(p)).Go? == CloseParam(p).Go?
    ensures Rest(CloseParam(Rest(p)).p) == Rest(CloseParam(p).p)
  {
    hide FindCloseTag, CloseTagEnd;
    var a, s := p.raw[..p.parsePos], p.raw[p.parsePos..];
    Cut(p.raw, p.parsePos);
    FindCloseTagShift(a, s, 0, p.tags.closeParameter);
    var at := FindCloseTag(s, 0, p.tags.closeParameter);
    if at.Some? {
      var e := CloseTagEnd(s, at.value, p.tags.closeParameter);
      CloseTagShift(a, s, at.value, p.tags.closeParameter);
      assert p.raw[|a|..|a| + at.value] == s[0..at.value];
      DropTwice(p.raw, p.parsePos, e);
    }
  }

  lemma SkipSpacesRest(p: Parser)
    requires p.Valid() && p.phase.Structural?
    ensures Rest(SkipSpaces(Rest(p))) == Rest(SkipSpaces(p))
  {
    hide SkipSpace, Rest;
    RestIs(p);
    var a, s := p.raw[..p.parsePos], p.raw[p.parsePos..];
    Cut(p.raw, p.parsePos);
    SkipSpaceShift(a, s, 0);
    DropTwice(p.raw, p.parsePos, SkipSpace(s, 0));
    SameRest(SkipSpaces(Rest(p)), SkipSpaces(p));
  }

  lemma StepRest(p: Parser)
    requires p.Valid() && p.Live()
    ensures Step(Rest(p)).Go? == Step(p).Go?
    ensures Rest(Step(Rest(p)).p) == Rest(Step(p).p)
  {
    hide TagStep, CloseParam, SkipSpaces, Rest, Tags.Shape;
    RestIs(p);
    if p.phase.ParamValue? {
      CloseParamRest(p);
    } else {
      SkipSpacesRest(p);
      TagStepRest(SkipSpaces(p));
      TagStepRest(SkipSpaces(Rest(p)));
    }
  }

  /** What a parse decides depends only on the bytes not yet consumed. */
  lemma {:induction false} ParseRest(p: Parser)
    requires p.Valid()
    ensures Rest(Parse(Rest(p))) == Rest(Parse(p))
    decreases |p.raw| - p.parsePos
  {
    hide Step;
    if p.Live() {
      StepRest(p);
      var o, o' := Step(p), Step(Rest(p));
      if o.Go? && o.p.Live() {
        ParseRest(o.p);
        ParseRest(o'.p);
      }
    } else {
      assert p.raw[p.parsePos..][0..] == p.raw[p.parsePos..];
    }
  }
}
