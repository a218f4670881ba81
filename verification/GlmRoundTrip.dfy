/**
 Printing tool calls in the documented GLM syntax and streaming them back.

 The GLM parser gives up on a buffer that shows the end of the call inside an argument,
 so here the round trip also has to rule out giving up on every beginning of the text.
 */
module GlmRoundTrip {
  import opened Strings
  import opened ToolCalls
  import opened GlmParser

  // ------------------------------------------------------------------------------------
  // Only the bytes not yet consumed matter
  // ------------------------------------------------------------------------------------

  function Rest(p: Glm): (r: Glm)
    requires p.Valid()
    ensures r.Valid() && r == p.(raw := r.raw, parsePos := 0)
    ensures |r.raw| == |p.raw| - p.parsePos
    ensures p.parsePos == 0 ==> r == p
  {
    p.(raw := p.raw[p.parsePos..], parsePos := 0)
  }

  lemma RestIs(p: Glm)
    requires p.Valid()
    ensures Rest(p).raw == p.raw[p.parsePos..] && Rest(Rest(p)) == Rest(p)
  {
    Cut(p.raw, p.parsePos);
  }

  lemma PartialShift(a: string, s: string, i: nat, p: string)
    ensures Partial(a + s, |a| + i, p) <==> Partial(s, i, p)
  {
    if i <= |s| && |s| - i < |p| {
      forall k | i <= k < |s| ensures (a + s)[|a| + k] == s[k] {
      }
      if Partial(a + s, |a| + i, p) {
        forall k | i <= k < |s| ensures s[k] == p[k - i] {
          assert (a + s)[|a| + k] == p[|a| + k - (|a| + i)];
        }
      }
    }
  }

  /** Parsers that differ only in what they have consumed. */
  lemma SameRest(p: Glm, q: Glm)
    requires p.Valid() && q.Valid() && p.raw[p.parsePos..] == q.raw[q.parsePos..]
    requires p.(raw := q.raw, parsePos := q.parsePos) == q
    ensures Rest(p) == Rest(q)
  {
  }

  /** A parser moved on by `n` bytes, seen from there. */
  lemma RestMoved(p: Glm, q: Glm, n: nat)
    requires p.Valid() && q.raw == p.raw && p.parsePos + n <= |p.raw|
    ensures Rest(q.(raw := Rest(p).raw, parsePos := n)) == Rest(q.(parsePos := p.parsePos + n))
  {
    hide Rest;
    RestIs(p);
    DropTwice(p.raw, p.parsePos, n);
    SameRest(q.(raw := Rest(p).raw, parsePos := n), q.(parsePos := p.parsePos + n));
  }

  lemma ValueStepRest(p: Glm)
    requires p.Valid() && p.phase.ParamValue?
    ensures ValueStep(Rest(p)).Go? == ValueStep(p).Go?
    ensures Rest(ValueStep(Rest(p)).p) == Rest(ValueStep(p).p)
  {
    hide Find, Rest, OccursAt;
    RestIs(p);
    var a, s := p.raw[..p.parsePos], p.raw[p.parsePos..];
    Cut(p.raw, p.parsePos);
    FindShift(a, s, p.tags.valueClose, 0);
    FindShift(a, s, p.tags.close, 0);
    var end := Find(s, p.tags.valueClose, 0);
    if end.Some? {
      OccursFits(s, end.value, p.tags.valueClose);
      assert p.raw[|a|..|a| + end.value] == s[0..end.value];
      RestMoved(p, ValueStep(p).p, end.value + |p.tags.valueClose|);
    } else {
      RestMoved(p, ValueStep(p).p, 0);
    }
  }

  lemma AfterCallStepRest(p: Glm)
    requires p.Valid() && p.phase.Structural?
    ensures AfterCallStep(Rest(p)).Go? == AfterCallStep(p).Go?
    ensures Rest(AfterCallStep(Rest(p)).p) == Rest(AfterCallStep(p).p)
  {
    hide OccursAt, Partial, Rest;
    RestIs(p);
    var a, s := p.raw[..p.parsePos], p.raw[p.parsePos..];
    Cut(p.raw, p.parsePos);
    OccursAtShift(a, s, 0, p.tags.start);
    PartialShift(a, s, 0, p.tags.start);
    if OccursAt(s, 0, p.tags.start) {
      OccursFits(s, 0, p.tags.start);
      RestMoved(p, AfterCallStep(p).p, |p.tags.start|);
    } else {
      RestMoved(p, AfterCallStep(p).p, 0);
    }
  }

  lemma NameUpToRest(p: Glm, lt: nat)
    requires p.Valid() && p.phase.Structural? && p.parsePos <= lt < |p.raw|
    ensures NameUpTo(Rest(p), lt - p.parsePos).Go? == NameUpTo(p, lt).Go?
    ensures Rest(NameUpTo(Rest(p), lt - p.parsePos).p) == Rest(NameUpTo(p, lt).p)
  {
    hide OccursAt, Partial, Trim, Rest;
    RestIs(p);
    var a, s := p.raw[..p.parsePos], p.raw[p.parsePos..];
    var k := lt - p.parsePos;
    Cut(p.raw, p.parsePos);
    OccursAtShift(a, s, k, p.tags.key);
    OccursAtShift(a, s, k, p.tags.close);
    PartialShift(a, s, k, p.tags.key);
    PartialShift(a, s, k, p.tags.close);
    assert p.raw[|a|..lt] == s[0..k];
    RestMoved(p, NameUpTo(p, lt).p, k);
    RestMoved(p, NameUpTo(p, lt).p, 0);
  }

  lemma NameStepRest(p: Glm)
    requires p.Valid() && p.phase.Structural?
    ensures NameStep(Rest(p)).Go? == NameStep(p).Go?
    ensures Rest(NameStep(Rest(p)).p) == Rest(NameStep(p).p)
  {
    hide FindChar, NameUpTo, Rest;
    RestIs(p);
    var a, s := p.raw[..p.parsePos], p.raw[p.parsePos..];
    Cut(p.raw, p.parsePos);
    FindCharShift(a, s, '<', 0);
    var lt := FindChar(s, '<', 0);
    if lt.Some? {
      NameUpToRest(p, |a| + lt.value);
    }
  }

  lemma ValueAtRest(p: Glm, after: nat)
    requires p.Valid() && p.parsePos <= after <= |p.raw|
    ensures var s := p.raw[p.parsePos..];
            var at := SkipSpace(s, after - p.parsePos);
            && SkipSpace(p.raw, after) == p.parsePos + at
            && (OccursAt(p.raw, p.parsePos + at, p.tags.value) <==> OccursAt(s, at, p.tags.value))
            && (Partial(p.raw, p.parsePos + at, p.tags.value) <==> Partial(s, at, p.tags.value))
            && (OccursAt(s, at, p.tags.value) ==> at + |p.tags.value| <= |s|)
  {
    hide SkipSpace, Partial;
    var a, s := p.raw[..p.parsePos], p.raw[p.parsePos..];
    Cut(p.raw, p.parsePos);
    SkipSpaceShift(a, s, after - p.parsePos);
    var at := SkipSpace(s, after - p.parsePos);
    OccursAtShift(a, s, at, p.tags.value);
    PartialShift(a, s, at, p.tags.value);
  }

  lemma ValueOpenRest(p: Glm, key: string, after: nat)
    requires p.Valid() && p.phase.Structural? && p.parsePos <= after <= |p.raw|
    ensures ValueOpen(Rest(p), key, after - p.parsePos).Go? == ValueOpen(p, key, after).Go?
    ensures Rest(ValueOpen(Rest(p), key, after - p.parsePos).p) == Rest(ValueOpen(p, key, after).p)
  {
    hide OccursAt, Partial, SkipSpace, Rest;
    RestIs(p);
    ValueAtRest(p, after);
    var at := SkipSpace(p.raw[p.parsePos..], after - p.parsePos);
    var q, q' := ValueOpen(p, key, after).p, ValueOpen(Rest(p), key, after - p.parsePos).p;
    var n := if key != "" && OccursAt(p.raw, p.parsePos + at, p.tags.value) then at + |p.tags.value| else 0;
    assert q' == q.(raw := Rest(p).raw, parsePos := n) && q.parsePos == p.parsePos + n;
    RestMoved(p, q, n);
  }

  lemma KeyEndsRest(p: Glm, from: nat)
    requires p.Valid() && p.parsePos + from <= |p.raw|
    ensures var s := p.raw[p.parsePos..];
            && Find(p.raw, p.tags.keyClose, p.parsePos + from) == Shift(Find(s, p.tags.keyClose, from), p.parsePos)
            && Find(p.raw, p.tags.close, p.parsePos + from) == Shift(Find(s, p.tags.close, from), p.parsePos)
  {
    hide Find;
    var a, s := p.raw[..p.parsePos], p.raw[p.parsePos..];
    Cut(p.raw, p.parsePos);
    FindShift(a, s, p.tags.keyClose, from);
    FindShift(a, s, p.tags.close, from);
  }

  lemma SameSlice(s: string, n: nat, from: nat, to: nat)
    requires n + to <= |s| && from <= to
    ensures s[n + from..n + to] == s[n..][from..to]
  {
  }

  /** A closed key, seen from the parse position. */
  lemma ClosedKeyRest(p: Glm, end: nat)
    requires p.Valid() && p.phase.Structural? && OccursAt(p.raw, p.parsePos, p.tags.key)
    requires OccursAt(Rest(p).raw, 0, p.tags.key)
    requires Find(p.raw, p.tags.keyClose, p.parsePos + |p.tags.key|) == Some(p.parsePos + end)
    requires Find(Rest(p).raw, p.tags.keyClose, |p.tags.key|) == Some(end)
    ensures KeyStep(Rest(p)).Go? == KeyStep(p).Go?
    ensures Rest(KeyStep(Rest(p)).p) == Rest(KeyStep(p).p)
  {
    hide Find, Trim, ValueOpen, OccursAt, Rest;
    RestIs(p);
    OccursFits(Rest(p).raw, end, p.tags.keyClose);
    SameSlice(p.raw, p.parsePos, |p.tags.key|, end);
    var key := Trim(Rest(p).raw[|p.tags.key|..end]);
    ValueOpenRest(p, key, p.parsePos + end + |p.tags.keyClose|);
  }

  lemma KeyStepRest(p: Glm)
    requires p.Valid() && p.phase.Structural?
    requires OccursAt(p.raw, p.parsePos, p.tags.key)
    ensures OccursAt(Rest(p).raw, 0, p.tags.key)
    ensures KeyStep(Rest(p)).Go? == KeyStep(p).Go?
    ensures Rest(KeyStep(Rest(p)).p) == Rest(KeyStep(p).p)
  {
    hide Find, Trim, ValueOpen, OccursAt, Rest;
    RestIs(p);
    var a, s := p.raw[..p.parsePos], p.raw[p.parsePos..];
    Cut(p.raw, p.parsePos);
    OccursAtShift(a, s, 0, p.tags.key);
    OccursFits(s, 0, p.tags.key);
    KeyEndsRest(p, |p.tags.key|);
    var end := Find(s, p.tags.keyClose, |p.tags.key|);
    if end.Some? {
      ClosedKeyRest(p, end.value);
    } else {
      RestMoved(p, KeyStep(p).p, 0);
    }
  }

  lemma CallStepRest(p: Glm)
    requires p.Valid() && p.phase.Structural?
    ensures CallStep(Rest(p)).Go? == CallStep(p).Go?
    ensures Rest(CallStep(Rest(p)).p) == Rest(CallStep(p).p)
  {
    hide OccursAt, Partial, KeyStep, Rest;
    RestIs(p);
    var a, s := p.raw[..p.parsePos], p.raw[p.parsePos..];
    Cut(p.raw, p.parsePos);
    OccursAtShift(a, s, 0, p.tags.close);
    PartialShift(a, s, 0, p.tags.close);
    OccursAtShift(a, s, 0, p.tags.key);
    PartialShift(a, s, 0, p.tags.key);
    if OccursAt(s, 0, p.tags.close) {
      OccursFits(s, 0, p.tags.close);
      RestMoved(p, CallStep(p).p, |p.tags.close|);
    } else if !Partial(s, 0, p.tags.close) && OccursAt(s, 0, p.tags.key) {
      KeyStepRest(p);
    } else {
      RestMoved(p, CallStep(p).p, 0);
    }
  }

  lemma TagStepRest(p: Glm)
    requires p.Valid() && p.phase.Structural? && p.tags.Shape()
    ensures TagStep(Rest(p)).Go? == TagStep(p).Go?
    ensures Rest(TagStep(Rest(p)).p) == Rest(TagStep(p).p)
  {
    hide AfterCallStep, NameStep, CallStep, GlmTags.Shape, Rest;
    if p.afterCall {
      AfterCallStepRest(p);
    } else if p.current.name.None? {
      NameStepRest(p);
    } else {
      CallStepRest(p);
    }
  }

  lemma SkipSpacesRest(p: Glm)
    requires p.Valid()
    ensures Rest(SkipSpaces(Rest(p))) == Rest(SkipSpaces(p))
  {
    hide SkipSpace, Rest;
    RestIs(p);
    var a, s := p.raw[..p.parsePos], p.raw[p.parsePos..];
    Cut(p.raw, p.parsePos);
    SkipSpaceShift(a, s, 0);
    RestMoved(p, p, SkipSpace(s, 0));
  }

  lemma StepRest(p: Glm)
    requires p.Valid() && p.Live() && p.tags.Shape()
    ensures Step(Rest(p)).Go? == Step(p).Go?
    ensures Rest(Step(Rest(p)).p) == Rest(Step(p).p)
  {
    hide TagStep, ValueStep, SkipSpaces, GlmTags.Shape, Rest;
    if p.phase.ParamValue? {
      ValueStepRest(p);
    } else {
      SkipSpacesRest(p);
      TagStepRest(SkipSpaces(p));
      TagStepRest(SkipSpaces(Rest(p)));
    }
  }

  /** What a parse decides depends only on the bytes not yet consumed. */
  lemma {:induction false} ParseRest(p: Glm)
    requires p.Valid() && p.tags.Shape()
    ensures Rest(Parse(Rest(p))) == Rest(Parse(p))
    decreases |p.raw| - p.parsePos
  {
    hide Step, GlmTags.Shape, Rest;
    if p.Live() {
      StepRest(p);
      var o, o' := Step(p), Step(Rest(p));
      if o.Go? && o.p.Live() {
        ParseRest(o.p);
        ParseRest(o'.p);
      }
    }
  }

  // ------------------------------------------------------------------------------------
  // Tags in a stream
  // ------------------------------------------------------------------------------------

  /** A tag cannot begin inside a text and end inside another tag. */
  lemma NoStraddle(v: string, tag: string, i: int, pat: string)
    requires OneAngle(pat) && tag != "" && tag[0] == '<'
    requires Free(v, pat) && i < |v|
    ensures !OccursAt(v + tag, i, pat)
  {
    var s := v + tag;
    OccursAtExtend(v, tag, i, pat);
    if 0 <= i && i + |pat| > |v| {
      assert s[|v|] == '<';
      Mismatch(s, i, pat, |v| - i);
    }
  }

  /** A printed text ends at its own closing tag. */
  lemma FindClosing(v: string, tag: string, x: string)
    requires OneAngle(tag) && Free(v, tag)
    ensures Find(v + (tag + x), tag, 0) == Some(|v|)
  {
    var s := v + (tag + x);
    assert s[|v|..|v| + |tag|] == tag;
    forall k | 0 <= k < |v| ensures !OccursAt(s, k, tag) {
      NoStraddle(v, tag + x, k, tag);
    }
    FindUnique(s, tag, 0, |v|);
  }

  /** Before its closing tag is complete, a text shows no tag it is free of. */
  lemma FindNothing(v: string, part: string, pat: string)
    requires OneAngle(pat) && Free(v, pat)
    requires part != "" ==> part[0] == '<' && forall k :: 1 <= k < |part| ==> part[k] != '<'
    requires !OccursAt(part, 0, pat)
    ensures Find(v + part, pat, 0) == None
  {
    forall k | 0 <= k ensures !OccursAt(v + part, k, pat) {
      if k < |v| {
        if part == "" {
          assert v + part == v;
        } else {
          NoStraddle(v, part, k, pat);
        }
      } else {
        OccursAtShift(v, part, k - |v|, pat);
        if k > |v| {
          Mismatch(part, k - |v|, pat, 0);
        }
      }
    }
  }

  lemma TrimId(s: string)
    requires s != "" && !IsSpace(s[0]) && !IsSpace(s[|s| - 1])
    ensures Trim(s) == s
  {
    SkipSpaceUnique(s, 0, 0);
  }

  // ------------------------------------------------------------------------------------
  // Streaming one step
  // ------------------------------------------------------------------------------------

  /** The parser with exactly this text ahead of it. */
  function With(q: Glm, text: string): (r: Glm)
    ensures r.Valid()
  {
    q.(raw := text, parsePos := 0)
  }

  /** No beginning of the text makes the parser give up. */
  ghost predicate NoErr(q: Glm, text: string)
    requires q.tags.Shape()
  {
    forall n :: 0 <= n <= |text| ==> !Parse(With(q, text[..n])).phase.Error?
  }

  /**
   The parser waits on every beginning of the text shorter than `m`, and from `m` bytes on
   makes the same move: consume `c` bytes and become `q'`.
   */
  ghost predicate Advances(q: Glm, text: string, m: nat, c: nat, q': Glm)
    requires q.tags.Shape() && q.Live()
  {
    && c <= m <= |text|
    && (forall n :: 0 <= n < m ==> Step(With(q, text[..n])).Wait?)
    && (forall n :: m <= n <= |text| ==>
          Step(With(q, text[..n])) == Go(q'.(raw := text[..n], parsePos := c)))
  }

  lemma Through(q: Glm, text: string, m: nat, c: nat, q': Glm)
    requires q.tags.Shape() && q.Live() && q'.Live() && q'.tags == q.tags
    requires Advances(q, text, m, c, q') && NoErr(q', text[c..])
    ensures NoErr(q, text)
  {
    hide Step, GlmTags.Shape;
    forall n | 0 <= n <= |text| ensures !Parse(With(q, text[..n])).phase.Error? {
      if n < m {
        assert Step(With(q, text[..n])).Wait?;
      } else {
        MoveOn(q, text[..n], c, q');
        assert text[..n][c..] == text[c..][..n - c];
      }
    }
  }

  /** A step that leaves the parser live is invisible in the outcome. */
  lemma MoveOn(q: Glm, text: string, c: nat, q': Glm)
    requires q.tags.Shape() && q.Live() && q'.Live() && q'.tags == q.tags && c <= |text|
    requires Step(With(q, text)) == Go(q'.(raw := text, parsePos := c))
    ensures Rest(Parse(With(q, text))) == Rest(Parse(With(q', text[c..])))
    ensures Parse(With(q, text)).phase == Parse(With(q', text[c..])).phase
  {
    hide Step, GlmTags.Shape;
    var o := q'.(raw := text, parsePos := c);
    ParseRest(o);
    assert Rest(o) == With(q', text[c..]);
  }

  /** Any beginning of `a + b` ends in `a` or is `a` followed by a beginning of `b`. */
  lemma Beginning(a: string, b: string, n: nat)
    requires n <= |a + b|
    ensures n <= |a| ==> (a + b)[..n] == a[..n]
    ensures n >= |a| ==> (a + b)[..n] == a + b[..n - |a|]
  {
  }

  /** A beginning of a tag is a partial match of that tag and a match of no other. */
  lemma TagPart(tag: string, j: nat, other: string)
    requires OneAngle(tag) && OneAngle(other) && j < |tag|
    requires tag == other || tag[1] != other[1] || tag[2] != other[2]
    ensures Partial(tag[..j], 0, tag) && !OccursAt(tag[..j], 0, other)
  {
    var s := tag[..j];
    if tag != other {
      if tag[1] != other[1] {
        Mismatch(s, 0, other, 1);
      } else {
        Mismatch(s, 0, other, 2);
      }
    }
  }

  lemma NoSpaceAtStart(s: string)
    requires s == "" || !IsSpace(s[0])
    ensures SkipSpace(s, 0) == 0
  {
    SkipSpaceUnique(s, 0, 0);
  }

  // ---- the value -----------------------------------------------------------------------

  lemma ValueWaits(q: Glm, v: string, j: nat)
    requires q.tags.Shape() && q.phase.ParamValue?
    requires Free(v, q.tags.valueClose) && Free(v, q.tags.close) && j < |q.tags.valueClose|
    ensures Step(With(q, v + q.tags.valueClose[..j])).Wait?
  {
    hide Find, OccursAt, Partial;
    var tag := q.tags.valueClose;
    TagPart(tag, j, tag);
    TagPart(tag, j, q.tags.close);
    FindNothing(v, tag[..j], tag);
    FindNothing(v, tag[..j], q.tags.close);
  }

  lemma ShortValueWaits(q: Glm, v: string, n: nat)
    requires q.tags.Shape() && q.phase.ParamValue? && n <= |v|
    requires Free(v, q.tags.valueClose) && Free(v, q.tags.close)
    ensures Step(With(q, v[..n])).Wait?
  {
    FreePrefix(v, n, q.tags.valueClose);
    FreePrefix(v, n, q.tags.close);
    ValueWaits(q, v[..n], 0);
    assert v[..n] + q.tags.valueClose[..0] == v[..n];
  }

  /** The parser after a value. */
  function AfterValue(q: Glm, v: string): Glm {
    q.(phase := Structural, paramName := "",
       current := q.current.(args := q.current.args + [Arg(q.paramName, v, true)]))
  }

  lemma ValueGoes(q: Glm, v: string, x: string)
    requires q.tags.Shape() && q.phase.ParamValue? && Free(v, q.tags.valueClose)
    ensures var text := v + (q.tags.valueClose + x);
            Step(With(q, text)) ==
            Go(AfterValue(q, v).(raw := text, parsePos := |v| + |q.tags.valueClose|))
  {
    hide Find;
    FindClosing(v, q.tags.valueClose, x);
    var text := v + (q.tags.valueClose + x);
    assert text[0..|v|] == v;
  }

  lemma ReadValue(q: Glm, v: string, rest: string)
    requires q.tags.Shape() && q.phase.ParamValue? && Free(v, q.tags.valueClose)
    ensures Rest(Parse(With(q, v + (q.tags.valueClose + rest)))) == Rest(Parse(With(AfterValue(q, v), rest)))
  {
    hide Step, Free, GlmTags.Shape, Parse, Rest;
    var m := |v| + |q.tags.valueClose|;
    var text := v + (q.tags.valueClose + rest);
    ValueGoes(q, v, rest);
    assert text[m..] == rest;
    MoveOn(q, text, m, AfterValue(q, v));
  }

  lemma StreamValue(q: Glm, v: string, rest: string)
    requires q.tags.Shape() && q.phase.ParamValue?
    requires Free(v, q.tags.valueClose) && Free(v, q.tags.close)
    requires NoErr(AfterValue(q, v), rest)
    ensures NoErr(q, v + (q.tags.valueClose + rest))
  {
    hide Step, NoErr, Free, GlmTags.Shape, Parse;
    var tag := q.tags.valueClose;
    var text := v + (tag + rest);
    var m := |v| + |tag|;
    forall n | 0 <= n < m ensures Step(With(q, text[..n])).Wait? {
      Beginning(v, tag + rest, n);
      if n <= |v| {
        ShortValueWaits(q, v, n);
      } else {
        Beginning(tag, rest, n - |v|);
        ValueWaits(q, v, n - |v|);
      }
    }
    forall n | m <= n <= |text|
      ensures Step(With(q, text[..n])) == Go(AfterValue(q, v).(raw := text[..n], parsePos := m))
    {
      Beginning(v, tag + rest, n);
      Beginning(tag, rest, n - |v|);
      ValueGoes(q, v, rest[..n - m]);
    }
    assert text[m..] == rest;
    Through(q, text, m, m, AfterValue(q, v));
  }

  // ---- the name ------------------------------------------------------------------------

  ghost predicate NameLike(s: string) {
    s != "" && !IsSpace(s[0]) && !IsSpace(s[|s| - 1])
  }

  ghost predicate NameText(s: string) {
    NameLike(s) && forall k :: 0 <= k < |s| ==> s[k] != '<'
  }

  /** Inside a call that has no name yet. */
  ghost predicate Unnamed(q: Glm) {
    q.tags.Shape() && q.phase.Structural? && !q.afterCall && q.current.name.None?
  }

  /** The tag that ends a name: a key or the end of the call. */
  ghost predicate EndsName(t: GlmTags, tag: string) {
    tag == t.key || tag == t.close
  }

  lemma NameWaits(q: Glm, name: string, tag: string, j: nat)
    requires Unnamed(q) && NameText(name) && EndsName(q.tags, tag) && j < |tag|
    ensures Step(With(q, name + tag[..j])).Wait?
  {
    hide OccursAt, Partial, FindChar, Trim;
    var s := name + tag[..j];
    NoSpaceAtStart(s);
    if j > 0 {
      assert s[|name|] == '<';
      FindCharUnique(s, '<', 0, |name|);
      TagPart(tag, j, q.tags.key);
      TagPart(tag, j, q.tags.close);
      OccursAtShift(name, tag[..j], 0, q.tags.key);
      OccursAtShift(name, tag[..j], 0, q.tags.close);
      PartialShift(name, tag[..j], 0, tag);
    } else {
      assert s == name;
      NoLt(name);
    }
  }

  lemma NoLt(s: string)
    requires forall k :: 0 <= k < |s| ==> s[k] != '<'
    ensures FindChar(s, '<', 0) == None
  {
  }

  lemma ShortNameWaits(q: Glm, name: string, n: nat)
    requires Unnamed(q) && NameText(name) && n <= |name|
    ensures Step(With(q, name[..n])).Wait?
  {
    NoSpaceAtStart(name[..n]);
    NoLt(name[..n]);
  }

  function Named(q: Glm, name: string): Glm {
    q.(current := Call(Some(name), []))
  }

  lemma NameGoes(q: Glm, name: string, tag: string, x: string)
    requires Unnamed(q) && NameText(name) && EndsName(q.tags, tag)
    ensures var text := name + (tag + x);
            Step(With(q, text)) == Go(Named(q, name).(raw := text, parsePos := |name|))
  {
    hide OccursAt, Partial, FindChar, Trim;
    var text := name + (tag + x);
    NoSpaceAtStart(text);
    assert text[|name|] == '<';
    FindCharUnique(text, '<', 0, |name|);
    OccursAtShift(name, tag + x, 0, tag);
    TagHere(tag, x);
    assert text[0..|name|] == name;
    TrimId(name);
  }

  lemma TagHere(tag: string, x: string)
    ensures OccursAt(tag + x, 0, tag)
  {
    assert (tag + x)[0..0 + |tag|] == tag;
  }

  lemma ReadName(q: Glm, name: string, tag: string, rest: string)
    requires Unnamed(q) && NameText(name) && EndsName(q.tags, tag)
    ensures Rest(Parse(With(q, name + (tag + rest)))) == Rest(Parse(With(Named(q, name), tag + rest)))
  {
    hide Step, NameText, GlmTags.Shape, Parse, Rest;
    var text := name + (tag + rest);
    NameGoes(q, name, tag, rest);
    assert text[|name|..] == tag + rest;
    MoveOn(q, text, |name|, Named(q, name));
  }

  lemma StreamName(q: Glm, name: string, tag: string, rest: string)
    requires Unnamed(q) && NameText(name) && EndsName(q.tags, tag)
    requires NoErr(Named(q, name), tag + rest)
    ensures NoErr(q, name + (tag + rest))
  {
    hide Step, NoErr, NameText, GlmTags.Shape, Parse;
    var text := name + (tag + rest);
    var m := |name| + |tag|;
    forall n | 0 <= n < m ensures Step(With(q, text[..n])).Wait? {
      Beginning(name, tag + rest, n);
      if n <= |name| {
        ShortNameWaits(q, name, n);
      } else {
        Beginning(tag, rest, n - |name|);
        NameWaits(q, name, tag, n - |name|);
      }
    }
    forall n | m <= n <= |text|
      ensures Step(With(q, text[..n])) == Go(Named(q, name).(raw := text[..n], parsePos := |name|))
    {
      Beginning(name, tag + rest, n);
      Beginning(tag, rest, n - |name|);
      NameGoes(q, name, tag, rest[..n - m]);
    }
    assert text[|name|..] == tag + rest;
    Through(q, text, m, |name|, Named(q, name));
  }

  // ---- the end of a call ---------------------------------------------------------------

  /** Between the arguments of a named call. */
  ghost predicate InCall(q: Glm) {
    q.tags.Shape() && q.phase.Structural? && !q.afterCall && q.current.name.Some?
  }

  function Closed(q: Glm): Glm {
    q.(calls := q.calls + [q.current], current := NO_CALL, afterCall := true)
  }

  lemma ReadClose(q: Glm, rest: string)
    requires InCall(q)
    ensures Rest(Parse(With(q, q.tags.close + rest))) == Rest(Parse(With(Closed(q), rest)))
  {
    hide Step, GlmTags.Shape, Parse, Rest;
    var tag := q.tags.close;
    CloseGoes(q, rest);
    assert (tag + rest)[|tag|..] == rest;
    MoveOn(q, tag + rest, |tag|, Closed(q));
  }

  lemma StreamClose(q: Glm, rest: string)
    requires InCall(q) && NoErr(Closed(q), rest)
    ensures NoErr(q, q.tags.close + rest)
  {
    hide Step, NoErr, GlmTags.Shape, Parse;
    var tag := q.tags.close;
    var text := tag + rest;
    forall n | 0 <= n < |tag| ensures Step(With(q, text[..n])).Wait? {
      Beginning(tag, rest, n);
      CloseWaits(q, n);
    }
    forall n | |tag| <= n <= |text|
      ensures Step(With(q, text[..n])) == Go(Closed(q).(raw := text[..n], parsePos := |tag|))
    {
      Beginning(tag, rest, n);
      CloseGoes(q, rest[..n - |tag|]);
    }
    assert text[|tag|..] == rest;
    Through(q, text, |tag|, |tag|, Closed(q));
  }

  lemma CloseWaits(q: Glm, n: nat)
    requires InCall(q) && n < |q.tags.close|
    ensures Step(With(q, q.tags.close[..n])).Wait?
  {
    hide OccursAt, Partial, KeyStep;
    NoSpaceAtStart(q.tags.close[..n]);
    TagPart(q.tags.close, n, q.tags.close);
  }

  lemma CloseGoes(q: Glm, x: string)
    requires InCall(q)
    ensures var text := q.tags.close + x;
            Step(With(q, text)) == Go(Closed(q).(raw := text, parsePos := |q.tags.close|))
  {
    hide OccursAt, Partial, KeyStep;
    NoSpaceAtStart(q.tags.close + x);
    TagHere(q.tags.close, x);
  }

  // ---- a key ---------------------------------------------------------------------------

  ghost predicate KeyText(t: GlmTags, s: string) {
    NameLike(s) && Free(s, t.keyClose)
  }

  lemma KeyTagWaits(q: Glm, n: nat)
    requires InCall(q) && n < |q.tags.key|
    ensures Step(With(q, q.tags.key[..n])).Wait?
  {
    hide OccursAt, Partial, KeyStep;
    NoSpaceAtStart(q.tags.key[..n]);
    TagPart(q.tags.key, n, q.tags.key);
    TagPart(q.tags.key, n, q.tags.close);
  }

  /** After a whole key tag the parser is reading that key. */
  lemma InKey(q: Glm, w: string)
    requires InCall(q)
    ensures var text := q.tags.key + w;
            OccursAt(text, 0, q.tags.key) && Step(With(q, text)) == KeyStep(With(q, text))
  {
    hide OccursAt, KeyStep;
    var text := q.tags.key + w;
    NoSpaceAtStart(text);
    TagHere(q.tags.key, w);
    assert text[1] == q.tags.key[1] && q.tags.close[1] == '/';
    Mismatch(text, 0, q.tags.close, 1);
  }

  lemma KeyTextWaits(q: Glm, k: string, j: nat)
    requires InCall(q) && Free(k, q.tags.keyClose) && Free(k, q.tags.close)
    requires j < |q.tags.keyClose|
    ensures Step(With(q, q.tags.key + (k + q.tags.keyClose[..j]))).Wait?
  {
    hide Find, OccursAt, ValueOpen, Partial, Step;
    var t := q.tags;
    var w := k + t.keyClose[..j];
    InKey(q, w);
    TagPart(t.keyClose, j, t.keyClose);
    TagPart(t.keyClose, j, t.close);
    FindNothing(k, t.keyClose[..j], t.keyClose);
    FindNothing(k, t.keyClose[..j], t.close);
    FindShift(t.key, w, t.keyClose, 0);
    FindShift(t.key, w, t.close, 0);
  }

  /** A closed key leads to the opening of its value. */
  lemma KeyClosed(q: Glm, k: string, w: string)
    requires InCall(q) && KeyText(q.tags, k)
    ensures var t := q.tags;
            var text := t.key + (k + (t.keyClose + w));
            Step(With(q, text)) == ValueOpen(With(q, text), k, |t.key| + |k| + |t.keyClose|)
  {
    hide Find, OccursAt, ValueOpen, Trim, Step;
    var t := q.tags;
    var text := t.key + (k + (t.keyClose + w));
    InKey(q, k + (t.keyClose + w));
    FindClosing(k, t.keyClose, w);
    FindShift(t.key, k + (t.keyClose + w), t.keyClose, 0);
    assert text[|t.key|..|t.key| + |k|] == k;
    TrimId(k);
  }

  lemma OpenWaits(q: Glm, pre: string, k: string, j: nat)
    requires q.tags.Shape() && q.phase.Structural? && k != "" && j < |q.tags.value|
    ensures ValueOpen(With(q, pre + q.tags.value[..j]), k, |pre|).Wait?
  {
    hide OccursAt, Partial;
    var part := q.tags.value[..j];
    NoSpaceAtStart(part);
    SkipSpaceShift(pre, part, 0);
    TagPart(q.tags.value, j, q.tags.value);
    OccursAtShift(pre, part, 0, q.tags.value);
    PartialShift(pre, part, 0, q.tags.value);
  }

  function Keyed(q: Glm, k: string): Glm {
    q.(paramName := k, phase := ParamValue)
  }

  lemma OpenGoes(q: Glm, pre: string, k: string, x: string)
    requires q.tags.Shape() && q.phase.Structural? && k != ""
    ensures var text := pre + (q.tags.value + x);
            ValueOpen(With(q, text), k, |pre|) ==
            Go(Keyed(q, k).(raw := text, parsePos := |pre| + |q.tags.value|))
  {
    hide OccursAt, Partial;
    var w := q.tags.value + x;
    NoSpaceAtStart(w);
    SkipSpaceShift(pre, w, 0);
    TagHere(q.tags.value, x);
    OccursAtShift(pre, w, 0, q.tags.value);
  }

  /** The text of a key and the opening of its value. */
  function KeyOpening(t: GlmTags, k: string): string {
    t.key + (k + (t.keyClose + t.value))
  }

  lemma KeyWaits(q: Glm, k: string, n: nat)
    requires InCall(q) && KeyText(q.tags, k) && Free(k, q.tags.close) && n < |KeyOpening(q.tags, k)|
    ensures Step(With(q, KeyOpening(q.tags, k)[..n])).Wait?
  {
    hide Step, ValueOpen, GlmTags.Shape, Free;
    var t := q.tags;
    Beginning(t.key, k + (t.keyClose + t.value), n);
    if n < |t.key| {
      KeyTagWaits(q, n);
    } else {
      var n1 := n - |t.key|;
      Beginning(k, t.keyClose + t.value, n1);
      if n1 <= |k| {
        FreePrefix(k, n1, t.keyClose);
        FreePrefix(k, n1, t.close);
        assert 0 < |t.keyClose| by { TagsNonempty(t); }
        KeyTextWaits(q, k[..n1], 0);
        assert k[..n1] + t.keyClose[..0] == k[..n1];
      } else {
        var n2 := n1 - |k|;
        Beginning(t.keyClose, t.value, n2);
        if n2 < |t.keyClose| {
          KeyTextWaits(q, k, n2);
        } else {
          var part := t.value[..n2 - |t.keyClose|];
          KeyClosed(q, k, part);
          var pre := t.key + (k + t.keyClose);
          assert pre + part == t.key + (k + (t.keyClose + part));
          OpenWaits(q, pre, k, n2 - |t.keyClose|);
        }
      }
    }
  }

  lemma TagsNonempty(t: GlmTags)
    requires t.Shape()
    ensures |t.keyClose| > 0 && |t.start| > 0
  {
  }

  lemma KeyGoes(q: Glm, k: string, x: string)
    requires InCall(q) && KeyText(q.tags, k)
    ensures var text := KeyOpening(q.tags, k) + x;
            Step(With(q, text)) == Go(Keyed(q, k).(raw := text, parsePos := |KeyOpening(q.tags, k)|))
  {
    hide Step, ValueOpen, GlmTags.Shape, Free;
    var t := q.tags;
    var pre := t.key + (k + t.keyClose);
    KeyClosed(q, k, t.value + x);
    OpenGoes(q, pre, k, x);
    assert pre + (t.value + x) == t.key + (k + (t.keyClose + (t.value + x)));
    assert pre + (t.value + x) == KeyOpening(t, k) + x;
  }

  lemma ReadKey(q: Glm, k: string, rest: string)
    requires InCall(q) && KeyText(q.tags, k)
    ensures Rest(Parse(With(q, KeyOpening(q.tags, k) + rest))) == Rest(Parse(With(Keyed(q, k), rest)))
  {
    hide Step, GlmTags.Shape, Parse, KeyText, KeyOpening, Rest;
    var open := KeyOpening(q.tags, k);
    KeyGoes(q, k, rest);
    assert (open + rest)[|open|..] == rest;
    MoveOn(q, open + rest, |open|, Keyed(q, k));
  }

  lemma StreamKey(q: Glm, k: string, rest: string)
    requires InCall(q) && KeyText(q.tags, k) && Free(k, q.tags.close) && NoErr(Keyed(q, k), rest)
    ensures NoErr(q, KeyOpening(q.tags, k) + rest)
  {
    hide Step, NoErr, GlmTags.Shape, Parse, KeyText, KeyOpening, Free;
    var open := KeyOpening(q.tags, k);
    var text := open + rest;
    forall n | 0 <= n < |open| ensures Step(With(q, text[..n])).Wait? {
      Beginning(open, rest, n);
      KeyWaits(q, k, n);
    }
    forall n | |open| <= n <= |text|
      ensures Step(With(q, text[..n])) == Go(Keyed(q, k).(raw := text[..n], parsePos := |open|))
    {
      Beginning(open, rest, n);
      KeyGoes(q, k, rest[..n - |open|]);
    }
    assert text[|open|..] == rest;
    Through(q, text, |open|, |open|, Keyed(q, k));
  }

  // ---- between calls -------------------------------------------------------------------

  ghost predicate Between(q: Glm) {
    q.tags.Shape() && q.phase.Structural? && q.afterCall
  }

  function Opened(q: Glm): Glm {
    q.(afterCall := false)
  }

  lemma NewlineSkip(s: string)
    requires s == "" || !IsSpace(s[0])
    ensures SkipSpace("\n" + s, 0) == 1
  {
    SkipSpaceUnique("\n" + s, 0, 1);
  }

  /** A line break after a call leaves the parser waiting for another call. */
  lemma StartWaits(q: Glm, j: nat)
    requires Between(q) && j < |q.tags.start|
    ensures Step(With(q, "\n" + q.tags.start[..j])).Wait?
  {
    hide OccursAt, Partial;
    var part := q.tags.start[..j];
    NewlineSkip(part);
    TagPart(q.tags.start, j, q.tags.start);
    OccursAtShift("\n", part, 0, q.tags.start);
    PartialShift("\n", part, 0, q.tags.start);
  }

  lemma StartGoes(q: Glm, x: string)
    requires Between(q)
    ensures var text := "\n" + (q.tags.start + x);
            Step(With(q, text)) == Go(Opened(q).(raw := text, parsePos := 1 + |q.tags.start|))
  {
    hide OccursAt, Partial;
    var w := q.tags.start + x;
    NewlineSkip(w);
    TagHere(q.tags.start, x);
    OccursAtShift("\n", w, 0, q.tags.start);
  }

  lemma EmptyWaits(q: Glm)
    requires q.tags.Shape() && q.phase.Structural?
    ensures Step(With(q, "")).Wait?
  {
  }

  lemma ReadStart(q: Glm, rest: string)
    requires Between(q)
    ensures Rest(Parse(With(q, "\n" + (q.tags.start + rest)))) == Rest(Parse(With(Opened(q), rest)))
  {
    hide Step, GlmTags.Shape, Parse, Rest;
    var text := "\n" + (q.tags.start + rest);
    var m := 1 + |q.tags.start|;
    StartGoes(q, rest);
    assert text[m..] == rest;
    MoveOn(q, text, m, Opened(q));
  }

  lemma StreamStart(q: Glm, rest: string)
    requires Between(q) && NoErr(Opened(q), rest)
    ensures NoErr(q, "\n" + (q.tags.start + rest))
  {
    hide Step, NoErr, GlmTags.Shape, Parse;
    var tag := q.tags.start;
    var text := "\n" + (tag + rest);
    var m := 1 + |tag|;
    forall n | 0 <= n < m ensures Step(With(q, text[..n])).Wait? {
      if n == 0 {
        assert text[..n] == "";
        EmptyWaits(q);
      } else {
        Beginning("\n", tag + rest, n);
        Beginning(tag, rest, n - 1);
        StartWaits(q, n - 1);
      }
    }
    forall n | m <= n <= |text|
      ensures Step(With(q, text[..n])) == Go(Opened(q).(raw := text[..n], parsePos := m))
    {
      Beginning("\n", tag + rest, n);
      Beginning(tag, rest, n - 1);
      StartGoes(q, rest[..n - m]);
    }
    assert text[m..] == rest;
    Through(q, text, m, m, Opened(q));
  }

  // ------------------------------------------------------------------------------------
  // The printer and the round trip
  // ------------------------------------------------------------------------------------

  function PrintArgs(t: GlmTags, args: seq<Arg>): string {
    if args == [] then t.close
    else KeyOpening(t, args[0].name) + (args[0].value + (t.valueClose + PrintArgs(t, args[1..])))
  }

  /** What follows the start tag of a call, up to and including its close tag. */
  function PrintCall(t: GlmTags, c: Call): string {
    NameOf(c) + PrintArgs(t, c.args)
  }

  /** Calls as the model writes them, each on a line of its own, and what follows the last. */
  function PrintMore(t: GlmTags, calls: seq<Call>, after: string): string {
    if calls == [] then after
    else "\n" + (t.start + (PrintCall(t, calls[0]) + PrintMore(t, calls[1..], after)))
  }

  /** A key and a value that end at their own close tags. */
  ghost predicate Printable(t: GlmTags, a: Arg) {
    a.isString && KeyText(t, a.name) && Free(a.value, t.valueClose)
  }

  ghost predicate PrintableCall(t: GlmTags, c: Call) {
    && c.name.Some? && NameText(c.name.value)
    && forall k :: 0 <= k < |c.args| ==> Printable(t, c.args[k])
  }

  ghost predicate PrintableCalls(t: GlmTags, calls: seq<Call>) {
    forall k :: 0 <= k < |calls| ==> PrintableCall(t, calls[k])
  }

  /** Neither key nor value shows the end of the call. */
  ghost predicate Plain(t: GlmTags, a: Arg) {
    Free(a.name, t.close) && Free(a.value, t.close)
  }

  ghost predicate PlainCall(t: GlmTags, c: Call) {
    forall k :: 0 <= k < |c.args| ==> Plain(t, c.args[k])
  }

  ghost predicate PlainCalls(t: GlmTags, calls: seq<Call>) {
    forall k :: 0 <= k < |calls| ==> PlainCall(t, calls[k])
  }

  // ---- one parse of the whole text -----------------------------------------------------

  function WithArgs(q: Glm, args: seq<Arg>): Glm {
    q.(current := q.current.(args := q.current.args + args), paramName := "")
  }

  /** The parser after one printed argument. */
  function WithArg(q: Glm, a: Arg): Glm {
    AfterValue(Keyed(q, a.name), a.value)
  }

  lemma ArgsAfter(q: Glm, args: seq<Arg>)
    requires args != [] && args[0].isString
    ensures WithArgs(WithArg(q, args[0]), args[1..]) == WithArgs(q, args).(phase := Structural)
  {
    assert args[0] == Arg(args[0].name, args[0].value, true);
    assert [args[0]] + args[1..] == args;
  }

  function PrintArg(t: GlmTags, a: Arg): string {
    KeyOpening(t, a.name) + (a.value + t.valueClose)
  }

  lemma PrintArgsOne(t: GlmTags, args: seq<Arg>, rest: string)
    requires args != []
    ensures PrintArgs(t, args) + rest == PrintArg(t, args[0]) + (PrintArgs(t, args[1..]) + rest)
  {
  }

  lemma ReadArg(q: Glm, a: Arg, rest: string)
    requires InCall(q) && Printable(q.tags, a)
    ensures Rest(Parse(With(q, PrintArg(q.tags, a) + rest))) == Rest(Parse(With(WithArg(q, a), rest)))
  {
    hide GlmTags.Shape, Parse, KeyText, KeyOpening, Free, Rest;
    ReadKey(q, a.name, a.value + (q.tags.valueClose + rest));
    ReadValue(Keyed(q, a.name), a.value, rest);
    assert PrintArg(q.tags, a) + rest == KeyOpening(q.tags, a.name) + (a.value + (q.tags.valueClose + rest));
  }

  lemma StreamArg(q: Glm, a: Arg, rest: string)
    requires InCall(q) && Printable(q.tags, a) && Plain(q.tags, a) && NoErr(WithArg(q, a), rest)
    ensures NoErr(q, PrintArg(q.tags, a) + rest)
  {
    hide NoErr, GlmTags.Shape, Parse, KeyText, KeyOpening, Free;
    StreamValue(Keyed(q, a.name), a.value, rest);
    StreamKey(q, a.name, a.value + (q.tags.valueClose + rest));
    assert PrintArg(q.tags, a) + rest == KeyOpening(q.tags, a.name) + (a.value + (q.tags.valueClose + rest));
  }

  lemma {:induction false} ReadArgs(q: Glm, args: seq<Arg>, rest: string)
    requires InCall(q) && q.paramName == ""
    requires forall k :: 0 <= k < |args| ==> Printable(q.tags, args[k])
    ensures Rest(Parse(With(q, PrintArgs(q.tags, args) + rest)))
         == Rest(Parse(With(Closed(WithArgs(q, args)), rest)))
    decreases |args|
  {
    hide GlmTags.Shape, Parse, Rest, PrintArg;
    if args == [] {
      assert WithArgs(q, args) == q;
      ReadClose(q, rest);
    } else {
      ArgsAfter(q, args);
      PrintArgsOne(q.tags, args, rest);
      ReadArg(q, args[0], PrintArgs(q.tags, args[1..]) + rest);
      ReadArgs(WithArg(q, args[0]), args[1..], rest);
    }
  }

  lemma {:induction false} StreamArgs(q: Glm, args: seq<Arg>, rest: string)
    requires InCall(q) && q.paramName == ""
    requires forall k :: 0 <= k < |args| ==> Printable(q.tags, args[k]) && Plain(q.tags, args[k])
    requires NoErr(Closed(WithArgs(q, args)), rest)
    ensures NoErr(q, PrintArgs(q.tags, args) + rest)
    decreases |args|
  {
    hide NoErr, GlmTags.Shape, Parse, PrintArg;
    if args == [] {
      assert WithArgs(q, args) == q;
      StreamClose(q, rest);
    } else {
      ArgsAfter(q, args);
      PrintArgsOne(q.tags, args, rest);
      StreamArgs(WithArg(q, args[0]), args[1..], rest);
      StreamArg(q, args[0], PrintArgs(q.tags, args[1..]) + rest);
    }
  }

  /** The parser after one printed call. */
  function AfterCall(q: Glm, c: Call): Glm {
    q.(calls := q.calls + [c], current := NO_CALL, afterCall := true, paramName := "")
  }

  lemma ArgsEnd(q: Glm, c: Call)
    requires c.name.Some?
    ensures Closed(WithArgs(Named(q, c.name.value), c.args)) == AfterCall(q, c)
  {
    assert [] + c.args == c.args;
  }

  /** What ends a name is the first tag of the arguments. */
  lemma ArgsBegin(t: GlmTags, args: seq<Arg>, rest: string) returns (tag: string, more: string)
    ensures EndsName(t, tag) && PrintArgs(t, args) + rest == tag + more
    ensures tag == if args == [] then t.close else t.key
  {
    if args == [] {
      tag, more := t.close, rest;
    } else {
      var a := args[0];
      var tail := a.value + (t.valueClose + PrintArgs(t, args[1..]));
      tag, more := t.key, (a.name + (t.keyClose + t.value)) + (tail + rest);
      assert PrintArgs(t, args) == KeyOpening(t, a.name) + tail;
      assert (KeyOpening(t, a.name) + tail) + rest == tag + more;
    }
  }

  lemma ReadCall(q: Glm, c: Call, rest: string)
    requires Unnamed(q) && q.paramName == "" && PrintableCall(q.tags, c)
    ensures Rest(Parse(With(q, PrintCall(q.tags, c) + rest))) == Rest(Parse(With(AfterCall(q, c), rest)))
  {
    hide GlmTags.Shape, Parse, Printable, PrintArgs, NameText, Rest;
    var name := c.name.value;
    ArgsEnd(q, c);
    ReadArgs(Named(q, name), c.args, rest);
    var tag, more := ArgsBegin(q.tags, c.args, rest);
    ReadName(q, name, tag, more);
    assert PrintCall(q.tags, c) + rest == name + (PrintArgs(q.tags, c.args) + rest);
  }

  lemma StreamCall(q: Glm, c: Call, rest: string)
    requires Unnamed(q) && q.paramName == "" && PrintableCall(q.tags, c) && PlainCall(q.tags, c)
    requires NoErr(AfterCall(q, c), rest)
    ensures NoErr(q, PrintCall(q.tags, c) + rest)
  {
    hide NoErr, GlmTags.Shape, Parse, Printable, PrintArgs, NameText, Plain;
    var name := c.name.value;
    ArgsEnd(q, c);
    StreamArgs(Named(q, name), c.args, rest);
    var tag, more := ArgsBegin(q.tags, c.args, rest);
    StreamName(q, name, tag, more);
    assert PrintCall(q.tags, c) + rest == name + (PrintArgs(q.tags, c.args) + rest);
  }

  lemma BlankWaits(q: Glm, s: string)
    requires Between(q) && Spaces(s)
    ensures Parse(With(q, s)) == With(q, s).(parsePos := |s|)
  {
    SkipSpaceUnique(s, 0, |s|);
  }

  /** Spaces after the last call: the parser waits, ready to be finished. */
  lemma ReadEnd(q: Glm, after: string)
    requires Between(q) && Spaces(after)
    ensures NoErr(q, after)
    ensures Parse(With(q, after)) == With(q, after).(parsePos := |after|)
  {
    hide Parse, GlmTags.Shape;
    BlankWaits(q, after);
    forall n | 0 <= n <= |after| ensures !Parse(With(q, after[..n])).phase.Error? {
      BlankWaits(q, after[..n]);
    }
  }

  /** All calls are recognised and the parser waits after the last one. */
  ghost predicate Complete(r: Glm, calls: seq<Call>) {
    && r.phase.Structural? && r.afterCall && r.calls == calls
    && r.Valid() && r.parsePos == |r.raw|
  }

  /** Between two calls, nothing of the last one left over. */
  ghost predicate Ready(q: Glm) {
    Between(q) && q.paramName == "" && q.current == NO_CALL
  }

  lemma {:induction false} ReadMore(q: Glm, calls: seq<Call>, after: string)
    requires Ready(q) && PrintableCalls(q.tags, calls) && Spaces(after)
    ensures Complete(Parse(With(q, PrintMore(q.tags, calls, after))), q.calls + calls)
    decreases |calls|
  {
    hide GlmTags.Shape, Parse, PrintableCall, PrintCall, Rest;
    if calls == [] {
      ReadEnd(q, after);
      assert q.calls + calls == q.calls;
    } else {
      var more := PrintMore(q.tags, calls[1..], after);
      var q1 := Opened(q);
      var q2 := AfterCall(q1, calls[0]);
      ReadMore(q2, calls[1..], after);
      ReadCall(q1, calls[0], more);
      ReadStart(q, PrintCall(q.tags, calls[0]) + more);
      var r, r' := Parse(With(q, PrintMore(q.tags, calls, after))), Parse(With(q2, more));
      assert Rest(r) == Rest(r');
      assert q2.calls + calls[1..] == q.calls + calls;
    }
  }

  lemma {:induction false} StreamMore(q: Glm, calls: seq<Call>, after: string)
    requires Ready(q) && PrintableCalls(q.tags, calls) && Spaces(after) && PlainCalls(q.tags, calls)
    ensures NoErr(q, PrintMore(q.tags, calls, after))
    decreases |calls|
  {
    hide NoErr, GlmTags.Shape, Parse, PrintableCall, PrintCall, PlainCall;
    if calls == [] {
      ReadEnd(q, after);
    } else {
      var more := PrintMore(q.tags, calls[1..], after);
      var q1 := Opened(q);
      StreamMore(AfterCall(q1, calls[0]), calls[1..], after);
      StreamCall(q1, calls[0], more);
      StreamStart(q, PrintCall(q.tags, calls[0]) + more);
    }
  }

  /** The text behind the start marker of the first call, and what follows the stanza. */
  function Stanza(t: GlmTags, calls: seq<Call>, after: string): string
    requires calls != []
  {
    PrintCall(t, calls[0]) + PrintMore(t, calls[1..], after)
  }

  /** One parse of a printed stanza recognises every call, whatever keys and values show. */
  lemma StanzaParses(t: GlmTags, calls: seq<Call>, after: string)
    requires t.Shape() && calls != [] && PrintableCalls(t, calls) && Spaces(after)
    ensures Complete(Parse(Started(t).Append(Stanza(t, calls, after))), calls)
  {
    hide GlmTags.Shape, Parse, PrintableCall, PrintCall, PrintMore, Rest;
    var text := Stanza(t, calls, after);
    var p := Started(t);
    var q := With(p, "");
    ReadMore(AfterCall(q, calls[0]), calls[1..], after);
    ReadCall(q, calls[0], PrintMore(t, calls[1..], after));
    var r := Parse(p.Append(text));
    StartedRest(t, text);
    ParseRest(p.Append(text));
    assert Rest(r) == Rest(Parse(With(q, text)));
    assert AfterCall(q, calls[0]).calls + calls[1..] == calls;
  }

  /** Streaming meets no error when no key and no value shows the end of the call. */
  lemma StanzaStreams(t: GlmTags, calls: seq<Call>, after: string)
    requires t.Shape() && calls != [] && PrintableCalls(t, calls) && Spaces(after) && PlainCalls(t, calls)
    ensures NoEarlyError(Started(t), Stanza(t, calls, after))
    ensures Feed(Started(t), Stanza(t, calls, after)) == Parse(Started(t).Append(Stanza(t, calls, after)))
  {
    hide NoErr, GlmTags.Shape, Parse, PrintableCall, PrintCall, PrintMore, PlainCall, NoEarlyError, Feed;
    var q := With(Started(t), "");
    StreamMore(AfterCall(q, calls[0]), calls[1..], after);
    StreamCall(q, calls[0], PrintMore(t, calls[1..], after));
    StartedStreams(t, Stanza(t, calls, after));
    StartedWaits(t);
    FeedIsOneParse(Started(t), Stanza(t, calls, after));
  }

  /** The stanza is done with exactly these calls. */
  ghost predicate DoneWith(r: Glm, calls: seq<Call>) {
    r.phase.Done? && r.calls == calls
  }

  lemma FinishAtEnd(r: Glm, calls: seq<Call>)
    requires Complete(r, calls)
    ensures DoneWith(Finish(r), calls)
  {
  }

  lemma StartedWaits(t: GlmTags)
    requires t.Shape()
    ensures Parse(Started(t)) == Started(t)
  {
  }

  lemma StartedRest(t: GlmTags, s: string)
    ensures Rest(Started(t).Append(s)) == With(With(Started(t), ""), s)
  {
    assert (t.start + s)[|t.start|..] == s;
  }

  lemma StartedStreams(t: GlmTags, text: string)
    requires t.Shape() && NoErr(With(Started(t), ""), text)
    ensures NoEarlyError(Started(t), text)
  {
    hide GlmTags.Shape, Parse, Rest;
    forall n | 0 <= n <= |text| ensures !Parse(Started(t).Append(text[..n])).phase.Error? {
      StartedRest(t, text[..n]);
      ParseRest(Started(t).Append(text[..n]));
    }
  }

  // ---- where streaming is stricter than one parse --------------------------------------

  /** A value that shows the end of the call fails before its close tag arrives. */
  lemma ShownCloseFails(q: Glm, v: string)
    requires q.tags.Shape() && q.phase.ParamValue? && Free(v, q.tags.valueClose) && !Free(v, q.tags.close)
    ensures Step(With(q, v)).p.phase.Error?
  {
    var i :| OccursAt(v, i, q.tags.close);
    assert Find(v, q.tags.valueClose, 0) == None;
    assert Find(v, q.tags.close, 0).Some?;
  }

  /** So does a key. */
  lemma ShownCloseInKeyFails(q: Glm, k: string)
    requires InCall(q) && Free(k, q.tags.keyClose) && !Free(k, q.tags.close)
    ensures Step(With(q, q.tags.key + k)).p.phase.Error?
  {
    hide Find, OccursAt, Step;
    var t := q.tags;
    InKey(q, k);
    var i :| OccursAt(k, i, t.close);
    assert Find(k, t.keyClose, 0) == None;
    assert i >= 0 by { OccursFits(k, i, t.close); }
    assert Find(k, t.close, 0).Some?;
    FindShift(t.key, k, t.keyClose, 0);
    FindShift(t.key, k, t.close, 0);
  }

  /**
   The side condition on values is exact: a value free of its own closing tag streams
   through without an error if and only if it does not spell the end of the call.
   */
  lemma ValueStreamsIff(q: Glm, v: string)
    requires q.tags.Shape() && q.phase.ParamValue? && Free(v, q.tags.valueClose)
    ensures (forall n :: 0 <= n <= |v| ==> !Step(With(q, v[..n])).p.phase.Error?)
            <==> Free(v, q.tags.close)
  {
    hide Step, GlmTags.Shape, Free;
    if Free(v, q.tags.close) {
      forall n | 0 <= n <= |v| ensures !Step(With(q, v[..n])).p.phase.Error? {
        ShortValueWaits(q, v, n);
      }
    } else {
      ShownCloseFails(q, v);
      assert v[..|v|] == v;
    }
  }

  /** So is the one on keys. */
  lemma KeyStreamsIff(q: Glm, k: string)
    requires InCall(q) && KeyText(q.tags, k)
    ensures (forall n :: 0 <= n <= |q.tags.key + k| ==> !Step(With(q, (q.tags.key + k)[..n])).p.phase.Error?)
            <==> Free(k, q.tags.close)
  {
    hide Step, GlmTags.Shape, Free;
    var t := q.tags;
    var s := t.key + k;
    if Free(k, t.close) {
      assert KeyOpening(t, k) == s + (t.keyClose + t.value);
      assert 0 < |t.keyClose| by { TagsNonempty(t); }
      forall n | 0 <= n <= |s| ensures !Step(With(q, s[..n])).p.phase.Error? {
        Beginning(s, t.keyClose + t.value, n);
        KeyWaits(q, k, n);
      }
    } else {
      ShownCloseInKeyFails(q, k);
      assert s[..|s|] == s;
    }
  }

  /** The same value, parsed in one piece, is accepted: streaming is deliberately stricter. */
  lemma BatchAccepts(q: Glm, v: string)
    requires q.tags.Shape() && q.phase.ParamValue? && Free(v, q.tags.valueClose)
    ensures var text := v + (q.tags.valueClose + "");
            Step(With(q, text)).Go? && Step(With(q, text)).p.current.args ==
              q.current.args + [Arg(q.paramName, v, true)]
  {
    ValueGoes(q, v, "");
  }

  /** And so is the same key. */
  lemma BatchAcceptsKey(q: Glm, k: string)
    requires InCall(q) && KeyText(q.tags, k)
    ensures var o := Step(With(q, KeyOpening(q.tags, k)));
            o.Go? && o.p.phase.ParamValue? && o.p.paramName == k
  {
    KeyGoes(q, k, "");
    assert KeyOpening(q.tags, k) + "" == KeyOpening(q.tags, k);
  }

  /** Some beginning of `text`, at least `from` bytes long, makes the parser give up. */
  ghost predicate FailsOn(q: Glm, text: string, from: nat)
    requires q.tags.Shape()
  {
    exists n :: from <= n <= |text| && Parse(With(q, text[..n])).phase.Error?
  }

  lemma FailsAt(q: Glm, text: string, n: nat, from: nat)
    requires q.tags.Shape() && from <= n <= |text| && Parse(With(q, text[..n])).phase.Error?
    ensures FailsOn(q, text, from)
  {
  }

  lemma FailingStep(q: Glm, text: string)
    requires q.tags.Shape() && q.Live() && Step(With(q, text)).p.phase.Error?
    ensures Parse(With(q, text)).phase.Error?
  {
  }

  /** A text read before the failing one only shifts the failure. */
  lemma FailsLater(q: Glm, a: string, q': Glm, b: string, from: nat)
    requires q.tags.Shape() && q'.tags == q.tags && FailsOn(q', b, from)
    requires forall n :: from <= n <= |b| ==>
               Rest(Parse(With(q, a + b[..n]))) == Rest(Parse(With(q', b[..n])))
    ensures FailsOn(q, a + b, |a| + from)
  {
    hide Parse, GlmTags.Shape, Rest;
    var n :| from <= n <= |b| && Parse(With(q', b[..n])).phase.Error?;
    assert (a + b)[..|a| + n] == a + b[..n];
    assert Rest(Parse(With(q, a + b[..n]))).phase == Parse(With(q, a + b[..n])).phase;
    FailsAt(q, a + b, |a| + n, |a| + from);
  }

  lemma ArgFails(q: Glm, a: Arg, rest: string)
    requires InCall(q) && Printable(q.tags, a) && !Plain(q.tags, a)
    ensures FailsOn(q, PrintArg(q.tags, a) + rest, |q.tags.key|)
  {
    hide GlmTags.Shape, Parse, Step, Free, Rest, FailsOn;
    var t := q.tags;
    var text := PrintArg(t, a) + rest;
    if !Free(a.name, t.close) {
      ShownCloseInKeyFails(q, a.name);
      FailingStep(q, t.key + a.name);
      assert text[..|t.key + a.name|] == t.key + a.name;
      FailsAt(q, text, |t.key + a.name|, |t.key|);
    } else {
      var open := KeyOpening(t, a.name);
      var q1 := Keyed(q, a.name);
      ShownCloseFails(q1, a.value);
      FailingStep(q1, a.value);
      ReadKey(q, a.name, a.value);
      assert Rest(Parse(With(q, open + a.value))).phase == Parse(With(q, open + a.value)).phase;
      assert text[..|open + a.value|] == open + a.value;
      FailsAt(q, text, |open + a.value|, |t.key|);
    }
  }

  lemma {:induction false} ArgsFail(q: Glm, args: seq<Arg>, rest: string)
    requires InCall(q) && q.paramName == ""
    requires forall k :: 0 <= k < |args| ==> Printable(q.tags, args[k])
    requires exists k :: 0 <= k < |args| && !Plain(q.tags, args[k])
    ensures FailsOn(q, PrintArgs(q.tags, args) + rest, |q.tags.key|)
    decreases |args|
  {
    hide GlmTags.Shape, Parse, Rest, FailsOn, PrintArg, Printable, Plain;
    var t := q.tags;
    PrintArgsOne(t, args, rest);
    if !Plain(t, args[0]) {
      ArgFails(q, args[0], PrintArgs(t, args[1..]) + rest);
    } else {
      var q1 := WithArg(q, args[0]);
      var b := PrintArgs(t, args[1..]) + rest;
      var k :| 0 <= k < |args| && !Plain(t, args[k]);
      assert args[1..][k - 1] == args[k];
      ArgsFail(q1, args[1..], rest);
      forall n | |t.key| <= n <= |b|
        ensures Rest(Parse(With(q, PrintArg(t, args[0]) + b[..n]))) == Rest(Parse(With(q1, b[..n])))
      {
        ReadArg(q, args[0], b[..n]);
      }
      FailsLater(q, PrintArg(t, args[0]), q1, b, |t.key|);
      FailsWeaker(q, PrintArg(t, args[0]) + b, |PrintArg(t, args[0])| + |t.key|, |t.key|);
    }
  }

  lemma FailsWeaker(q: Glm, text: string, from: nat, to: nat)
    requires q.tags.Shape() && to <= from && FailsOn(q, text, from)
    ensures FailsOn(q, text, to)
  {
  }

  lemma CallFails(q: Glm, c: Call, rest: string)
    requires Unnamed(q) && q.paramName == "" && PrintableCall(q.tags, c) && !PlainCall(q.tags, c)
    ensures FailsOn(q, PrintCall(q.tags, c) + rest, 0)
  {
    hide GlmTags.Shape, Parse, Rest, FailsOn, Printable, Plain, PrintArgs, NameText;
    var t, name := q.tags, c.name.value;
    var q1 := Named(q, name);
    var b := PrintArgs(t, c.args) + rest;
    ArgsFail(q1, c.args, rest);
    var tag, more := ArgsBegin(t, c.args, rest);
    forall n | |t.key| <= n <= |b|
      ensures Rest(Parse(With(q, name + b[..n]))) == Rest(Parse(With(q1, b[..n])))
    {
      Beginning(tag, more, n);
      ReadName(q, name, tag, more[..n - |tag|]);
    }
    FailsLater(q, name, q1, b, |t.key|);
    FailsWeaker(q, name + b, |name| + |t.key|, 0);
    assert PrintCall(t, c) + rest == name + b;
  }

  lemma {:induction false} MoreFails(q: Glm, calls: seq<Call>, after: string)
    requires Ready(q) && PrintableCalls(q.tags, calls) && Spaces(after) && !PlainCalls(q.tags, calls)
    ensures FailsOn(q, PrintMore(q.tags, calls, after), 0)
    decreases |calls|, 1
  {
    hide GlmTags.Shape, Parse, Rest, FailsOn, PrintableCall, PlainCall, PrintCall;
    var t := q.tags;
    var q1 := Opened(q);
    var more := PrintMore(t, calls[1..], after);
    CallsFail(q1, calls, after);
    var b := PrintCall(t, calls[0]) + more;
    forall n | 0 <= n <= |b|
      ensures Rest(Parse(With(q, "\n" + t.start + b[..n]))) == Rest(Parse(With(q1, b[..n])))
    {
      ReadStart(q, b[..n]);
      assert "\n" + t.start + b[..n] == "\n" + (t.start + b[..n]);
    }
    FailsLater(q, "\n" + t.start, q1, b, 0);
    FailsWeaker(q, "\n" + t.start + b, |"\n" + t.start| + 0, 0);
    assert "\n" + t.start + b == PrintMore(t, calls, after);
  }

  lemma {:induction false} CallsFail(q: Glm, calls: seq<Call>, after: string)
    requires Unnamed(q) && q.paramName == "" && q.current == NO_CALL
    requires calls != [] && PrintableCalls(q.tags, calls) && Spaces(after) && !PlainCalls(q.tags, calls)
    ensures FailsOn(q, Stanza(q.tags, calls, after), 0)
    decreases |calls|, 0
  {
    hide GlmTags.Shape, Parse, Rest, FailsOn, PrintableCall, PlainCall, PrintCall;
    var t := q.tags;
    var b := PrintMore(t, calls[1..], after);
    if !PlainCall(t, calls[0]) {
      CallFails(q, calls[0], b);
    } else {
      var q1 := AfterCall(q, calls[0]);
      MoreFails(q1, calls[1..], after);
      forall n | 0 <= n <= |b|
        ensures Rest(Parse(With(q, PrintCall(t, calls[0]) + b[..n]))) == Rest(Parse(With(q1, b[..n])))
      {
        ReadCall(q, calls[0], b[..n]);
      }
      FailsLater(q, PrintCall(t, calls[0]), q1, b, 0);
      FailsWeaker(q, PrintCall(t, calls[0]) + b, |PrintCall(t, calls[0])| + 0, 0);
    }
  }

  // ---- the whole stanza ----------------------------------------------------------------

  /** One parse of the whole text, then finish: always exactly the printed calls. */
  lemma BatchRoundTrip(t: GlmTags, calls: seq<Call>, after: string)
    requires t.Shape() && calls != [] && PrintableCalls(t, calls) && Spaces(after)
    ensures DoneWith(Finish(Parse(Started(t).Append(Stanza(t, calls, after)))), calls)
  {
    hide GlmTags.Shape, Parse, Stanza, PrintableCalls;
    StanzaParses(t, calls, after);
    FinishAtEnd(Parse(Started(t).Append(Stanza(t, calls, after))), calls);
  }

  /**
   Byte by byte, then finish: exactly the printed calls if and only if no key and no
   value shows the end of the call; otherwise the parser fails.
   */
  lemma StreamRoundTripIff(t: GlmTags, calls: seq<Call>, after: string)
    requires t.Shape() && calls != [] && PrintableCalls(t, calls) && Spaces(after)
    ensures var r := Feed(Started(t), Stanza(t, calls, after));
            && (DoneWith(Finish(r), calls) <==> PlainCalls(t, calls))
            && (r.phase.Error? <==> !PlainCalls(t, calls))
  {
    hide GlmTags.Shape, Parse, Stanza, PrintableCalls, PlainCalls, Feed, NoEarlyError, FailsOn;
    var p, text := Started(t), Stanza(t, calls, after);
    StanzaParses(t, calls, after);
    if PlainCalls(t, calls) {
      StanzaStreams(t, calls, after);
      FinishAtEnd(Parse(p.Append(text)), calls);
    } else {
      CallsFail(With(p, ""), calls, after);
      StartedFails(t, text);
      StartedWaits(t);
      FeedFails(p, text);
    }
  }

  lemma StartedFails(t: GlmTags, text: string)
    requires t.Shape() && FailsOn(With(Started(t), ""), text, 0)
    ensures !NoEarlyError(Started(t), text)
  {
    hide GlmTags.Shape, Parse, Rest;
    var q := With(Started(t), "");
    var n :| 0 <= n <= |text| && Parse(With(q, text[..n])).phase.Error?;
    StartedRest(t, text[..n]);
    ParseRest(Started(t).Append(text[..n]));
    assert Rest(Parse(Started(t).Append(text[..n]))).phase == Parse(Started(t).Append(text[..n])).phase;
  }
}
