/**
 The streaming tool-call parser of the agent, GLM syntax.

 The C struct is shared with the DSML parser and switched by a syntax field; here it is a
 type of its own with the fields the GLM branch uses.  One pass of the C loop may name the
 call and go on to its next tag; `Step` counts these as two steps.
 */
module GlmParser {
  import opened Strings
  import opened ToolCalls

  /** The GLM tag vocabulary; `GLM_TAGS` is the one the agent speaks. */
  datatype GlmTags = GlmTags(
    start: string,
    close: string,
    key: string,
    keyClose: string,
    value: string,
    valueClose: string)
  {
    ghost predicate Shape() {
      && OpenTagShape(start) && OpenTagShape(key) && OpenTagShape(value)
      && CloseTagShape(close) && CloseTagShape(keyClose) && CloseTagShape(valueClose)
      && close[2] != keyClose[2] && close[2] != valueClose[2]
    }
  }

  ghost predicate OneAngle(s: string) {
    |s| >= 3 && s[0] == '<' && forall k :: 1 <= k < |s| ==> s[k] != '<'
  }

  ghost predicate OpenTagShape(s: string) {
    OneAngle(s) && s[1] != '/'
  }

  ghost predicate CloseTagShape(s: string) {
    OneAngle(s) && s[1] == '/'
  }

  const GLM_TAGS := GlmTags("<tool_call>", "</tool_call>", "<arg_key>", "</arg_key>",
                            "<arg_value>", "</arg_value>")

  lemma GlmOpenTags()
    ensures OpenTagShape(GLM_TAGS.start) && OpenTagShape(GLM_TAGS.key) && OpenTagShape(GLM_TAGS.value)
  {
  }

  lemma GlmCloseTags()
    ensures CloseTagShape(GLM_TAGS.close) && CloseTagShape(GLM_TAGS.keyClose) && CloseTagShape(GLM_TAGS.valueClose)
  {
  }

  lemma GlmTagsShape()
    ensures GLM_TAGS.Shape()
  {
    hide OpenTagShape, CloseTagShape;
    GlmOpenTags();
    GlmCloseTags();
    assert GLM_TAGS.close[2] == 't' && GLM_TAGS.keyClose[2] == 'a' && GLM_TAGS.valueClose[2] == 'a';
    assert |GLM_TAGS.close| > 2 && |GLM_TAGS.keyClose| > 2 && |GLM_TAGS.valueClose| > 2;
  }

  datatype Glm = Glm(
    tags: GlmTags,
    phase: Phase,
    raw: string,
    parsePos: nat,
    current: Call,
    paramName: string,
    afterCall: bool,
    calls: seq<Call>,
    error: Reason)
  {
    function Append(x: string): Glm {
      this.(raw := raw + x)
    }

    predicate Live() {
      phase.Structural? || phase.ParamValue?
    }

    predicate Terminal() {
      phase.Done? || phase.Error?
    }

    /** In a value, the parse position is where the value starts. */
    ghost predicate Valid() {
      parsePos <= |raw|
    }

    function Fail(why: Reason): Glm {
      this.(phase := Error, error := why)
    }
  }

  /** agent_bytes_partial_prefix_at: the buffer ends inside a copy of `p`. */
  predicate Partial(s: string, i: nat, p: string) {
    i <= |s| && |s| - i < |p| && forall k :: i <= k < |s| ==> s[k] == p[k - i]
  }

  /** agent_trim_span */
  function Trim(s: string): string {
    var from := SkipSpace(s, 0);
    s[from..TrimEnd(s, from, |s|)]
  }

  function TrimEnd(s: string, from: nat, end: nat): (r: nat)
    requires from <= end <= |s|
    ensures from <= r <= end
    decreases end
  {
    if end > from && IsSpace(s[end - 1]) then TrimEnd(s, from, end - 1) else end
  }

  datatype Outcome = Wait(p: Glm) | Go(p: Glm)

  function ValueStep(p: Glm): (r: Outcome)
    requires p.Valid() && p.phase.ParamValue?
    ensures r.p.Valid() && r.p.raw == p.raw && r.p.tags == p.tags
    ensures r.Go? && r.p.Live() ==> r.p.parsePos > p.parsePos || p.tags.valueClose == ""
    ensures r.Wait? ==> r.p == p
  {
    var end := Find(p.raw, p.tags.valueClose, p.parsePos);
    if end.Some? then
      var arg := Arg(p.paramName, p.raw[p.parsePos..end.value], true);
      Go(p.(phase := Structural,
         current := p.current.(args := p.current.args + [arg]),
         paramName := "",
         parsePos := end.value + |p.tags.valueClose|))
    else if Find(p.raw, p.tags.close, p.parsePos).Some? then Go(p.Fail(GlmUnterminatedValue))
    else Wait(p)
  }

  function AfterCallStep(p: Glm): (r: Outcome)
    requires p.Valid() && p.phase.Structural?
    ensures r.p.Valid() && r.p.raw == p.raw && r.p.tags == p.tags
    ensures r.Go? && r.p.Live() ==> r.p.parsePos == p.parsePos + |p.tags.start|
    ensures r.Wait? ==> r.p == p
  {
    if OccursAt(p.raw, p.parsePos, p.tags.start) then
      Go(p.(parsePos := p.parsePos + |p.tags.start|, afterCall := false))
    else if Partial(p.raw, p.parsePos, p.tags.start) then Wait(p)
    else Go(p.(afterCall := false, phase := Done))
  }

  /** The name of a call, decided by the tag that starts at `lt`. */
  function NameUpTo(p: Glm, lt: nat): (r: Outcome)
    requires p.Valid() && p.phase.Structural? && p.parsePos <= lt < |p.raw|
    ensures r.p.Valid() && r.p.raw == p.raw && r.p.tags == p.tags
    ensures r.Go? && r.p.Live() ==> r.p.parsePos == lt > p.parsePos
    ensures r.Wait? ==> r.p == p
  {
    if OccursAt(p.raw, lt, p.tags.key) || OccursAt(p.raw, lt, p.tags.close) then
      var name := Trim(p.raw[p.parsePos..lt]);
      if name == "" then Go(p.Fail(GlmNoName))
      else Go(p.(current := Call(Some(name), []), parsePos := lt))
    else if Partial(p.raw, lt, p.tags.key) || Partial(p.raw, lt, p.tags.close) then Wait(p)
    else Go(p.Fail(GlmExpectedKeyOrClose))
  }

  function NameStep(p: Glm): (r: Outcome)
    requires p.Valid() && p.phase.Structural?
    ensures r.p.Valid() && r.p.raw == p.raw && r.p.tags == p.tags
    ensures r.Go? && r.p.Live() ==> r.p.parsePos > p.parsePos
    ensures r.Wait? ==> r.p == p
  {
    var lt := FindChar(p.raw, '<', p.parsePos);
    if lt.None? then Wait(p) else NameUpTo(p, lt.value)
  }

  /** The opening of a value after the key that was closed at `after`. */
  function ValueOpen(p: Glm, key: string, after: nat): (r: Outcome)
    requires p.Valid() && p.phase.Structural? && after <= |p.raw|
    ensures r.p.Valid() && r.p.raw == p.raw && r.p.tags == p.tags
    ensures r.Go? && r.p.Live() ==> r.p.parsePos >= after
    ensures r.Wait? ==> r.p == p
  {
    var at := SkipSpace(p.raw, after);
    if key == "" then Go(p.Fail(GlmEmptyKey))
    else if OccursAt(p.raw, at, p.tags.value) then
      Go(p.(paramName := key, parsePos := at + |p.tags.value|, phase := ParamValue))
    else if Partial(p.raw, at, p.tags.value) then Wait(p)
    else Go(p.Fail(GlmExpectedValue))
  }

  /** The key and the opening of its value. */
  function KeyStep(p: Glm): (r: Outcome)
    requires p.Valid() && p.phase.Structural? && OccursAt(p.raw, p.parsePos, p.tags.key)
    ensures r.p.Valid() && r.p.raw == p.raw && r.p.tags == p.tags
    ensures r.Go? && r.p.Live() ==> r.p.parsePos >= p.parsePos + |p.tags.key|
    ensures r.Wait? ==> r.p == p
  {
    var from := p.parsePos + |p.tags.key|;
    var end := Find(p.raw, p.tags.keyClose, from);
    if end.Some? then
      ValueOpen(p, Trim(p.raw[from..end.value]), end.value + |p.tags.keyClose|)
    else if Find(p.raw, p.tags.close, from).Some? then Go(p.Fail(GlmUnterminatedKey))
    else Wait(p)
  }

  function CallStep(p: Glm): (r: Outcome)
    requires p.Valid() && p.phase.Structural?
    ensures r.p.Valid() && r.p.raw == p.raw && r.p.tags == p.tags
    ensures r.Go? && r.p.Live() ==> r.p.parsePos > p.parsePos || p.tags.close == "" || p.tags.key == ""
    ensures r.Wait? ==> r.p == p
  {
    if OccursAt(p.raw, p.parsePos, p.tags.close) then
      Go(p.(parsePos := p.parsePos + |p.tags.close|, calls := p.calls + [p.current],
            current := NO_CALL, afterCall := true))
    else if Partial(p.raw, p.parsePos, p.tags.close) then Wait(p)
    else if OccursAt(p.raw, p.parsePos, p.tags.key) then KeyStep(p)
    else if Partial(p.raw, p.parsePos, p.tags.key) then Wait(p)
    else Go(p.Fail(GlmExpectedKey))
  }

  /** The structural branch, the spaces before it already skipped. */
  function TagStep(p: Glm): (r: Outcome)
    requires p.Valid() && p.phase.Structural? && p.tags.Shape()
    ensures r.p.Valid() && r.p.raw == p.raw && r.p.tags == p.tags
    ensures r.Go? && r.p.Live() ==> r.p.parsePos > p.parsePos
    ensures r.Wait? ==> r.p == p
  {
    if p.parsePos >= |p.raw| then Wait(p)
    else if p.afterCall then AfterCallStep(p)
    else if p.current.name.None? then NameStep(p)
    else CallStep(p)
  }

  function SkipSpaces(p: Glm): (r: Glm)
    requires p.Valid()
    ensures r.Valid() && r == p.(parsePos := r.parsePos) && p.parsePos <= r.parsePos
  {
    p.(parsePos := SkipSpace(p.raw, p.parsePos))
  }

  function Step(p: Glm): (r: Outcome)
    requires p.Valid() && p.Live() && p.tags.Shape()
    ensures r.p.Valid() && r.p.raw == p.raw && r.p.tags == p.tags
    ensures r.Go? && r.p.Live() ==> r.p.parsePos > p.parsePos
    ensures r.Wait? ==> r.p == p.(parsePos := r.p.parsePos)
  {
    if p.phase.ParamValue? then ValueStep(p) else TagStep(SkipSpaces(p))
  }

  /** agent_glm_tool_parse */
  function Parse(p: Glm): (r: Glm)
    requires p.Valid() && p.tags.Shape()
    ensures r.Valid() && r.raw == p.raw && r.tags == p.tags
    decreases |p.raw| - p.parsePos
  {
    if !p.Live() then p
    else
      var o := Step(p);
      if o.Wait? || !o.p.Live() then o.p else Parse(o.p)
  }

  lemma StepPhase(p: Glm)
    requires p.Valid() && p.Live() && p.tags.Shape()
    ensures !Step(p).p.phase.Search?
  {
    hide OccursAt, Partial, Find, FindChar, SkipSpace, Trim, GlmTags.Shape;
  }

  /** A parse never goes back to searching. */
  lemma {:induction false} ParsePhase(p: Glm)
    requires p.Valid() && p.tags.Shape()
    ensures Parse(p).phase.Search? <==> p.phase.Search?
    decreases |p.raw| - p.parsePos
  {
    hide Step, GlmTags.Shape;
    if p.Live() {
      StepPhase(p);
      var o := Step(p);
      if o.Go? && o.p.Live() {
        ParsePhase(o.p);
      }
    }
  }

  /** The parser after the start marker. */
  function Started(tags: GlmTags): (r: Glm)
    ensures r.Valid()
  {
    Glm(tags, Structural, tags.start, |tags.start|, NO_CALL, "", false, [], NoReason)
  }

  /** The loop of agent_dsml_feed, past the start marker. */
  function Feed(p: Glm, s: string): (r: Glm)
    requires p.Valid() && p.tags.Shape()
    ensures r.Valid() && r.tags == p.tags
    decreases |s|
  {
    if s == "" then p else Feed(Parse(p.Append([s[0]])), s[1..])
  }

  /** agent_dsml_finish: a closed call followed by nothing but spaces completes the stanza. */
  function Finish(p: Glm): Glm
    requires p.Valid()
  {
    if p.Terminal() || !p.afterCall then p
    else
      var q := SkipSpaces(p);
      if q.parsePos >= |q.raw| then q.(afterCall := false, phase := Done) else q
  }

  // ------------------------------------------------------------------------------------
  // Progress other than an error survives every extension of the buffer
  // ------------------------------------------------------------------------------------

  /** A byte that rules a tag out keeps ruling it out. */
  lemma PartialExtend(s: string, x: string, i: nat, p: string)
    requires i <= |s| && !Partial(s, i, p) && !OccursAt(s, i, p)
    ensures !Partial(s + x, i, p) && !OccursAt(s + x, i, p)
  {
    OccursAtExtend(s, x, i, p);
    if |s| - i < |p| {
      var k :| i <= k < |s| && s[k] != p[k - i];
      assert (s + x)[k] == s[k];
      Mismatch(s + x, i, p, k - i);
    }
  }

  lemma ValueStepExtend(p: Glm, x: string)
    requires p.Valid() && p.phase.ParamValue?
    requires ValueStep(p).Go? && !ValueStep(p).p.phase.Error?
    ensures ValueStep(p.Append(x)) == Go(ValueStep(p).p.Append(x))
  {
    FindExtend(p.raw, x, p.tags.valueClose, p.parsePos);
    var end := Find(p.raw, p.tags.valueClose, p.parsePos).value;
    assert (p.raw + x)[p.parsePos..end] == p.raw[p.parsePos..end];
  }

  lemma AfterCallStepExtend(p: Glm, x: string)
    requires p.Valid() && p.phase.Structural? && AfterCallStep(p).Go?
    ensures AfterCallStep(p.Append(x)) == Go(AfterCallStep(p).p.Append(x))
  {
    OccursAtExtend(p.raw, x, p.parsePos, p.tags.start);
    if !OccursAt(p.raw, p.parsePos, p.tags.start) {
      PartialExtend(p.raw, x, p.parsePos, p.tags.start);
    }
  }

  lemma NameStepExtend(p: Glm, x: string)
    requires p.Valid() && p.phase.Structural? && NameStep(p).Go?
    ensures NameStep(p.Append(x)) == Go(NameStep(p).p.Append(x))
  {
    hide Trim, OccursAt, FindChar, Partial;
    FindCharExtend(p.raw, x, '<', p.parsePos);
    var lt := FindChar(p.raw, '<', p.parsePos).value;
    OccursAtExtend(p.raw, x, lt, p.tags.key);
    OccursAtExtend(p.raw, x, lt, p.tags.close);
    assert (p.raw + x)[p.parsePos..lt] == p.raw[p.parsePos..lt];
    if !OccursAt(p.raw, lt, p.tags.key) && !OccursAt(p.raw, lt, p.tags.close) {
      PartialExtend(p.raw, x, lt, p.tags.key);
      PartialExtend(p.raw, x, lt, p.tags.close);
    }
  }

  /** The opening of a value is found at the same place in a longer buffer. */
  lemma ValueOpenExtend(s: string, x: string, after: nat, tag: string)
    requires after <= |s| && tag != "" && OccursAt(s, SkipSpace(s, after), tag)
    ensures SkipSpace(s + x, after) == SkipSpace(s, after)
    ensures OccursAt(s + x, SkipSpace(s, after), tag)
  {
    SkipSpaceExtend(s, x, after);
    OccursAtExtend(s, x, SkipSpace(s, after), tag);
  }

  lemma ValueOpenGoes(p: Glm, key: string, after: nat, x: string)
    requires p.Valid() && p.phase.Structural? && after <= |p.raw| && p.tags.value != ""
    requires ValueOpen(p, key, after).Go? && !ValueOpen(p, key, after).p.phase.Error?
    ensures ValueOpen(p.Append(x), key, after) == Go(ValueOpen(p, key, after).p.Append(x))
  {
    hide SkipSpace, OccursAt, Partial;
    ValueOpenExtend(p.raw, x, after, p.tags.value);
  }

  lemma KeyStepExtend(p: Glm, x: string)
    requires p.Valid() && p.phase.Structural? && OccursAt(p.raw, p.parsePos, p.tags.key)
    requires p.tags.value != "" && KeyStep(p).Go? && !KeyStep(p).p.phase.Error?
    ensures OccursAt(p.raw + x, p.parsePos, p.tags.key)
    ensures KeyStep(p.Append(x)) == Go(KeyStep(p).p.Append(x))
  {
    hide Trim, Find, ValueOpen, OccursAt;
    OccursAtExtend(p.raw, x, p.parsePos, p.tags.key);
    var from := p.parsePos + |p.tags.key|;
    FindExtend(p.raw, x, p.tags.keyClose, from);
    var end := Find(p.raw, p.tags.keyClose, from).value;
    OccursFits(p.raw, end, p.tags.keyClose);
    assert (p.raw + x)[from..end] == p.raw[from..end];
    ValueOpenGoes(p, Trim(p.raw[from..end]), end + |p.tags.keyClose|, x);
  }

  lemma CallStepExtend(p: Glm, x: string)
    requires p.Valid() && p.phase.Structural? && p.tags.value != ""
    requires CallStep(p).Go? && !CallStep(p).p.phase.Error?
    ensures CallStep(p.Append(x)) == Go(CallStep(p).p.Append(x))
  {
    hide KeyStep, OccursAt, Partial;
    OccursAtExtend(p.raw, x, p.parsePos, p.tags.close);
    if !OccursAt(p.raw, p.parsePos, p.tags.close) {
      PartialExtend(p.raw, x, p.parsePos, p.tags.close);
      KeyStepExtend(p, x);
    }
  }

  lemma TagStepExtend(p: Glm, x: string)
    requires p.Valid() && p.phase.Structural? && p.tags.Shape()
    requires TagStep(p).Go? && !TagStep(p).p.phase.Error?
    ensures TagStep(p.Append(x)) == Go(TagStep(p).p.Append(x))
  {
    hide AfterCallStep, NameStep, CallStep;
    if p.afterCall {
      AfterCallStepExtend(p, x);
    } else if p.current.name.None? {
      NameStepExtend(p, x);
    } else {
      CallStepExtend(p, x);
    }
  }

  lemma StepExtend(p: Glm, x: string)
    requires p.Valid() && p.Live() && p.tags.Shape()
    ensures Step(p).Go? && !Step(p).p.phase.Error?
        ==> Step(p.Append(x)) == Go(Step(p).p.Append(x))
    ensures Step(p).Wait? ==> Step(Step(p).p.Append(x)) == Step(p.Append(x))
  {
    hide TagStep, ValueStep, SkipSpace, GlmTags.Shape;
    var o := Step(p);
    if p.phase.ParamValue? {
      if o.Go? && !o.p.phase.Error? {
        ValueStepExtend(p, x);
      }
    } else {
      SkipSpacesExtend(p, x);
      var q := SkipSpaces(p);
      if o.Go? && !o.p.phase.Error? {
        TagStepExtend(q, x);
        assert q.parsePos < |p.raw| by { TagGoInside(q); }
      }
    }
  }

  lemma TagGoInside(p: Glm)
    requires p.Valid() && p.phase.Structural? && p.tags.Shape() && TagStep(p).Go?
    ensures p.parsePos < |p.raw|
  {
  }

  lemma SkipSpacesExtend(p: Glm, x: string)
    requires p.Valid()
    ensures SkipSpaces(p).parsePos < |p.raw| ==> SkipSpaces(p.Append(x)) == SkipSpaces(p).Append(x)
    ensures SkipSpaces(SkipSpaces(p).Append(x)) == SkipSpaces(p.Append(x))
  {
    SkipSpaceExtend(p.raw, x, p.parsePos);
  }

  lemma {:induction false} ParseExtend(p: Glm, x: string)
    requires p.Valid() && p.tags.Shape() && !Parse(p).phase.Error?
    ensures Parse(Parse(p).Append(x)) == Parse(p.Append(x))
    decreases |p.raw| - p.parsePos
  {
    hide Step, GlmTags.Shape;
    if p.Live() {
      StepExtend(p, x);
      var o := Step(p);
      if o.Go? && o.p.Live() {
        ParseExtend(o.p, x);
      }
    }
  }

  /** No beginning of the text makes the parser give up. */
  ghost predicate NoEarlyError(p: Glm, s: string)
    requires p.Valid() && p.tags.Shape()
  {
    forall n :: 0 <= n <= |s| ==> !Parse(p.Append(s[..n])).phase.Error?
  }

  lemma NoEarlyErrorTail(p: Glm, s: string)
    requires p.Valid() && p.tags.Shape() && NoEarlyError(p, s) && s != ""
    ensures !Parse(p.Append([s[0]])).phase.Error?
    ensures NoEarlyError(Parse(p.Append([s[0]])), s[1..])
  {
    hide Parse, GlmTags.Shape;
    var p1 := p.Append([s[0]]);
    assert s[..1] == [s[0]];
    forall n | 0 <= n <= |s[1..]| ensures !Parse(Parse(p1).Append(s[1..][..n])).phase.Error? {
      ParseExtend(p1, s[1..][..n]);
      assert [s[0]] + s[1..][..n] == s[..n + 1];
      assert p1.Append(s[1..][..n]) == p.Append(s[..n + 1]);
    }
  }

  /**
   Streaming a text is one parse of the whole buffer, provided no beginning of the text
   already made the parser give up.
   */
  lemma {:induction false} FeedIsOneParse(p: Glm, s: string)
    requires p.Valid() && p.tags.Shape() && Parse(p) == p && NoEarlyError(p, s)
    ensures Feed(p, s) == Parse(p.Append(s))
    decreases |s|
  {
    hide Parse, GlmTags.Shape, NoEarlyError;
    if s == "" {
      assert p.Append(s) == p;
    } else {
      var p1 := p.Append([s[0]]);
      NoEarlyErrorTail(p, s);
      ParseExtend(p1, "");
      assert p1.Append("") == p1 && Parse(p1).Append("") == Parse(p1);
      FeedIsOneParse(Parse(p1), s[1..]);
      ParseExtend(p1, s[1..]);
      assert [s[0]] + s[1..] == s;
      assert p1.Append(s[1..]) == p.Append(s);
    }
  }

  // ------------------------------------------------------------------------------------
  // When streaming a text is one parse of it, exactly
  // ------------------------------------------------------------------------------------

  /** A parser that has ended only records bytes. */
  lemma {:induction false} EndedAbsorbs(p: Glm, s: string)
    requires p.Valid() && p.tags.Shape() && !p.Live()
    ensures Feed(p, s) == p.Append(s)
    decreases |s|
  {
    hide GlmTags.Shape;
    if s == "" {
      assert p.Append(s) == p;
    } else {
      EndedAbsorbs(p.Append([s[0]]), s[1..]);
      assert p.raw + [s[0]] + s[1..] == p.raw + s;
    }
  }

  /** If any beginning makes the parser give up, streaming ends in that failure. */
  lemma {:induction false} FeedFails(p: Glm, s: string)
    requires p.Valid() && p.tags.Shape() && Parse(p) == p && !NoEarlyError(p, s)
    ensures Feed(p, s).phase.Error?
    decreases |s|
  {
    hide Parse, GlmTags.Shape;
    if p.phase.Error? {
      EndedAbsorbs(p, s);
    } else {
      var n :| 0 <= n <= |s| && Parse(p.Append(s[..n])).phase.Error?;
      assert n > 0 by { assert p.Append("") == p && s[..0] == ""; }
      var p1 := p.Append([s[0]]);
      var e := Parse(p1);
      if e.phase.Error? {
        EndedAbsorbs(e, s[1..]);
      } else {
        ParseExtend(p1, "");
        assert p1.Append("") == p1 && e.Append("") == e;
        ParseExtend(p1, s[1..][..n - 1]);
        assert [s[0]] + s[1..][..n - 1] == s[..n];
        assert p1.Append(s[1..][..n - 1]) == p.Append(s[..n]);
        FeedFails(e, s[1..]);
      }
    }
  }

  /**
   The parser gave up on a key or a value because the end of the call came first, and
   `buf` does hold the close tag it was waiting for.
   */
  ghost predicate Hasty(e: Glm, buf: string)
    requires e.Valid()
  {
    && e.phase.Error?
    && match e.error
       case GlmUnterminatedValue => Find(buf, e.tags.valueClose, e.parsePos).Some?
       case GlmUnterminatedKey => Find(buf, e.tags.keyClose, e.parsePos + |e.tags.key|).Some?
       case _ => false
  }

  lemma FoundLater(s: string, x: string, p: string, i: nat)
    ensures Find(s, p, i).Some? ==> Find(s + x, p, i).Some?
  {
    if Find(s, p, i).Some? {
      FindExtend(s, x, p, i);
    }
  }

  lemma {:induction false} ParseForward(p: Glm)
    requires p.Valid() && p.tags.Shape()
    ensures Parse(p).parsePos >= p.parsePos
    decreases |p.raw| - p.parsePos
  {
    hide Step, GlmTags.Shape;
    if p.Live() {
      StepForward(p);
      var o := Step(p);
      if o.Go? && o.p.Live() {
        ParseForward(o.p);
      }
    }
  }

  lemma StepForward(p: Glm)
    requires p.Valid() && p.Live() && p.tags.Shape()
    ensures Step(p).p.parsePos >= p.parsePos
  {
    hide ValueStep, AfterCallStep, NameUpTo, ValueOpen, SkipSpace, OccursAt, Partial, Find, FindChar, Trim;
    ForwardSteps(p);
    ForwardSteps(SkipSpaces(p));
  }

  /** What each branch does to the parse position. */
  lemma ForwardSteps(p: Glm)
    requires p.Valid() && p.tags.Shape()
    ensures p.phase.ParamValue? ==> ValueStep(p).p.parsePos >= p.parsePos
    ensures p.phase.Structural? ==> TagStep(p).p.parsePos >= p.parsePos
  {
    hide OccursAt, Partial, Trim, SkipSpace;
  }

  /** `o` is something other than the failure `e`. */
  ghost predicate Elsewhere(o: Outcome, e: Glm) {
    o.Wait? || (o.p.phase.Error? && o.p.error != e.error) || (o.p.Live() && o.p.parsePos > e.parsePos)
  }

  lemma ValueStepFails(p: Glm, x: string)
    requires p.Valid() && p.phase.ParamValue? && p.tags.Shape()
    requires ValueStep(p).Go? && ValueStep(p).p.phase.Error?
    ensures var e := ValueStep(p).p;
            if Hasty(e, p.raw + x) then Elsewhere(ValueStep(p.Append(x)), e)
            else ValueStep(p.Append(x)) == Go(e.Append(x))
  {
    hide Find;
    FoundLater(p.raw, x, p.tags.close, p.parsePos);
  }

  lemma ValueOpenFails(p: Glm, key: string, after: nat, x: string)
    requires p.Valid() && p.phase.Structural? && after <= |p.raw| && p.tags.value != ""
    requires ValueOpen(p, key, after).p.phase.Error?
    ensures ValueOpen(p.Append(x), key, after) == Go(ValueOpen(p, key, after).p.Append(x))
  {
    hide SkipSpace, OccursAt;
    if key != "" {
      SkipSpaceExtend(p.raw, x, after);
      PartialExtend(p.raw, x, SkipSpace(p.raw, after), p.tags.value);
    }
  }

  lemma ClosedKeyFails(p: Glm, x: string)
    requires p.Valid() && p.phase.Structural? && OccursAt(p.raw, p.parsePos, p.tags.key)
    requires OccursAt(p.raw + x, p.parsePos, p.tags.key)
    requires p.tags.Shape() && KeyStep(p).Go? && KeyStep(p).p.phase.Error?
    requires Find(p.raw, p.tags.keyClose, p.parsePos + |p.tags.key|).Some?
    ensures var e := KeyStep(p).p;
            !Hasty(e, p.raw + x) && KeyStep(p.Append(x)) == Go(e.Append(x))
  {
    hide Find, OccursAt, Trim, ValueOpen;
    var from := p.parsePos + |p.tags.key|;
    var end := Find(p.raw, p.tags.keyClose, from).value;
    OccursFits(p.raw, end, p.tags.keyClose);
    FindExtend(p.raw, x, p.tags.keyClose, from);
    assert (p.raw + x)[from..end] == p.raw[from..end];
    var key := Trim(p.raw[from..end]);
    ValueOpenFails(p, key, end + |p.tags.keyClose|, x);
    ValueOpenReasons(p, key, end + |p.tags.keyClose|);
  }

  lemma KeyStepFails(p: Glm, x: string)
    requires p.Valid() && p.phase.Structural? && OccursAt(p.raw, p.parsePos, p.tags.key)
    requires p.tags.Shape() && KeyStep(p).Go? && KeyStep(p).p.phase.Error?
    ensures OccursAt(p.raw + x, p.parsePos, p.tags.key)
    ensures var e := KeyStep(p).p;
            if Hasty(e, p.raw + x) then Elsewhere(KeyStep(p.Append(x)), e)
            else KeyStep(p.Append(x)) == Go(e.Append(x))
  {
    hide Find, OccursAt, Trim, ValueOpen;
    OccursAtExtend(p.raw, x, p.parsePos, p.tags.key);
    var from := p.parsePos + |p.tags.key|;
    if Find(p.raw, p.tags.keyClose, from).Some? {
      ClosedKeyFails(p, x);
    } else {
      FoundLater(p.raw, x, p.tags.close, from);
      var end' := Find(p.raw + x, p.tags.keyClose, from);
      if end'.Some? {
        OccursFits(p.raw + x, end'.value, p.tags.keyClose);
        ValueOpenReasons(p.Append(x), Trim((p.raw + x)[from..end'.value]), end'.value + |p.tags.keyClose|);
      }
    }
  }

  lemma ValueOpenReasons(p: Glm, key: string, after: nat)
    requires p.Valid() && p.phase.Structural? && after <= |p.raw|
    ensures var o := ValueOpen(p, key, after);
            o.p.phase.Error? ==> o.p.error == GlmEmptyKey || o.p.error == GlmExpectedValue
    ensures ValueOpen(p, key, after).Go? ==> ValueOpen(p, key, after).p.phase.Error? || ValueOpen(p, key, after).p.Live()
  {
  }

  lemma CallStepFails(p: Glm, x: string)
    requires p.Valid() && p.phase.Structural? && p.tags.Shape()
    requires CallStep(p).Go? && CallStep(p).p.phase.Error?
    ensures var e := CallStep(p).p;
            if Hasty(e, p.raw + x) then Elsewhere(CallStep(p.Append(x)), e)
            else CallStep(p.Append(x)) == Go(e.Append(x))
  {
    hide KeyStep, OccursAt, Partial, Find, GlmTags.Shape;
    PartialExtend(p.raw, x, p.parsePos, p.tags.close);
    if OccursAt(p.raw, p.parsePos, p.tags.key) {
      KeyStepFails(p, x);
    } else {
      PartialExtend(p.raw, x, p.parsePos, p.tags.key);
    }
  }

  lemma TagStepFails(p: Glm, x: string)
    requires p.Valid() && p.phase.Structural? && p.tags.Shape()
    requires TagStep(p).Go? && TagStep(p).p.phase.Error?
    ensures var e := TagStep(p).p;
            if Hasty(e, p.raw + x) then Elsewhere(TagStep(p.Append(x)), e)
            else TagStep(p.Append(x)) == Go(e.Append(x))
  {
    hide AfterCallStep, NameStep, CallStep, Find, GlmTags.Shape;
    if p.afterCall {
      AfterCallStepExtend(p, x);
      AfterCallReasons(p);
    } else if p.current.name.None? {
      NameStepExtend(p, x);
      NameReasons(p);
    } else {
      CallStepFails(p, x);
    }
  }

  lemma AfterCallReasons(p: Glm)
    requires p.Valid() && p.phase.Structural?
    ensures AfterCallStep(p).Go? ==> !AfterCallStep(p).p.phase.Error?
  {
  }

  lemma NameReasons(p: Glm)
    requires p.Valid() && p.phase.Structural?
    ensures var o := NameStep(p);
            o.Go? && o.p.phase.Error? ==> o.p.error == GlmNoName || o.p.error == GlmExpectedKeyOrClose
  {
    hide OccursAt, Partial, Trim, FindChar;
  }

  /** A failure stays the same failure on longer buffers, exactly when it was not hasty. */
  lemma StepFails(p: Glm, x: string)
    requires p.Valid() && p.Live() && p.tags.Shape() && Step(p).Go? && Step(p).p.phase.Error?
    ensures var e := Step(p).p;
            if Hasty(e, p.raw + x) then Elsewhere(Step(p.Append(x)), e)
            else Step(p.Append(x)) == Go(e.Append(x))
  {
    hide TagStep, ValueStep, SkipSpace, GlmTags.Shape, Hasty, Elsewhere;
    if p.phase.ParamValue? {
      ValueStepFails(p, x);
    } else {
      var q := SkipSpaces(p);
      SkipSpacesExtend(p, x);
      assert q.parsePos < |p.raw| by { TagGoInside(q); }
      TagStepFails(q, x);
    }
  }

  lemma ElsewhereParse(p: Glm, e: Glm)
    requires p.Valid() && p.Live() && p.tags.Shape() && e.phase.Error? && Elsewhere(Step(p), e)
    ensures Parse(p) != e.(raw := p.raw)
  {
    hide Step, GlmTags.Shape;
    var o := Step(p);
    if o.Go? && o.p.Live() {
      ParseForward(o.p);
    } else if o.Wait? {
      assert o.p.phase == p.phase;
    }
  }

  lemma {:induction false} ParseFails(p: Glm, x: string)
    requires p.Valid() && p.Live() && p.tags.Shape() && Parse(p).phase.Error?
    ensures Parse(p.Append(x)) == Parse(p).Append(x) <==> !Hasty(Parse(p), p.raw + x)
    decreases |p.raw| - p.parsePos
  {
    hide Step, GlmTags.Shape, Hasty, Elsewhere;
    var o := Step(p);
    if o.Go? && o.p.Live() {
      StepExtend(p, x);
      ParseFails(o.p, x);
    } else {
      assert o.Wait? ==> o.p.phase == p.phase;
      StepFails(p, x);
      if Hasty(o.p, p.raw + x) {
        ElsewhereParse(p.Append(x), o.p);
      }
    }
  }

  /**
   Some beginning of the text makes the parser give up on a key or a value although the
   text goes on to close it.
   */
  ghost predicate TooEarly(p: Glm, s: string)
    requires p.Valid() && p.tags.Shape()
  {
    exists n :: 0 <= n <= |s| && Hasty(Parse(p.Append(s[..n])), p.raw + s)
  }

  /** Of the beginnings of a text that fails at once, one is hasty when the first is. */
  lemma FailsAtOnce(p: Glm, s: string)
    requires p.Valid() && p.Live() && p.tags.Shape() && Parse(p) == p && s != ""
    requires Parse(p.Append([s[0]])).phase.Error?
    ensures TooEarly(p, s) <==> Hasty(Parse(p.Append([s[0]])), p.raw + s)
  {
    hide Parse, GlmTags.Shape, Hasty;
    var p1 := p.Append([s[0]]);
    var e := Parse(p1);
    assert s[..1] == [s[0]];
    forall n | 0 <= n <= |s| ensures Hasty(Parse(p.Append(s[..n])), p.raw + s) ==> Hasty(e, p.raw + s) {
      if n == 0 {
        assert p.Append(s[..0]) == p;
        HastyFails(p, p.raw + s);
      } else {
        var x := s[1..n];
        assert [s[0]] + x == s[..n] && p1.Append(x) == p.Append(s[..n]);
        ParseFails(p1, x);
        assert p1.raw + x + s[n..] == p.raw + s;
        HastyLater(e, p1.raw + x, s[n..]);
        HastyRaw(e, x, p.raw + s);
      }
    }
  }

  lemma HastyFails(e: Glm, buf: string)
    requires e.Valid()
    ensures Hasty(e, buf) ==> e.phase.Error?
  {
  }

  lemma HastyLater(e: Glm, buf: string, x: string)
    requires e.Valid()
    ensures Hasty(e, buf) ==> Hasty(e, buf + x)
  {
    hide Find;
    FoundLater(buf, x, e.tags.valueClose, e.parsePos);
    FoundLater(buf, x, e.tags.keyClose, e.parsePos + |e.tags.key|);
  }

  lemma HastyRaw(e: Glm, x: string, buf: string)
    requires e.Valid()
    ensures Hasty(e.Append(x), buf) <==> Hasty(e, buf)
  {
    hide Find;
  }

  /** The beginnings of a text, seen after its first byte. */
  lemma BeginningAfter(p: Glm, s: string, n: nat)
    requires p.Valid() && p.tags.Shape() && 0 < n <= |s| && !Parse(p.Append([s[0]])).phase.Error?
    ensures Parse(Parse(p.Append([s[0]])).Append(s[1..][..n - 1])) == Parse(p.Append(s[..n]))
  {
    hide Parse, GlmTags.Shape;
    var p1 := p.Append([s[0]]);
    ParseExtend(p1, s[1..][..n - 1]);
    assert [s[0]] + s[1..][..n - 1] == s[..n];
    assert p1.Append(s[1..][..n - 1]) == p.Append(s[..n]);
  }

  lemma NotAtOnce(p: Glm, s: string)
    requires p.Valid() && p.tags.Shape() && Parse(p) == p && !p.phase.Error?
    ensures !Hasty(Parse(p.Append(s[..0])), p.raw + s)
  {
    hide Parse, GlmTags.Shape;
    assert p.Append(s[..0]) == p;
  }

  lemma TooEarlyAt(p: Glm, s: string, n: nat)
    requires p.Valid() && p.tags.Shape() && n <= |s| && Hasty(Parse(p.Append(s[..n])), p.raw + s)
    ensures TooEarly(p, s)
  {
  }

  lemma SameBuffer(p: Glm, s: string)
    requires p.Valid() && p.tags.Shape() && s != ""
    ensures Parse(p.Append([s[0]])).raw + s[1..] == p.raw + s
  {
    hide Parse, GlmTags.Shape;
    assert p.raw + [s[0]] + s[1..] == p.raw + s;
  }

  lemma EarlyBefore(p: Glm, s: string)
    requires p.Valid() && p.tags.Shape() && Parse(p) == p && !p.phase.Error? && s != "" && TooEarly(p, s)
    requires !Parse(p.Append([s[0]])).phase.Error?
    ensures TooEarly(Parse(p.Append([s[0]])), s[1..])
  {
    hide Parse, GlmTags.Shape, Hasty;
    NotAtOnce(p, s);
    SameBuffer(p, s);
    var n :| 0 <= n <= |s| && Hasty(Parse(p.Append(s[..n])), p.raw + s);
    hide TooEarly;
    BeginningAfter(p, s, n);
    TooEarlyAt(Parse(p.Append([s[0]])), s[1..], n - 1);
  }

  lemma EarlyAfter(p: Glm, s: string)
    requires p.Valid() && p.tags.Shape() && s != "" && !Parse(p.Append([s[0]])).phase.Error?
    requires TooEarly(Parse(p.Append([s[0]])), s[1..])
    ensures TooEarly(p, s)
  {
    hide Parse, GlmTags.Shape, Hasty;
    SameBuffer(p, s);
    var e := Parse(p.Append([s[0]]));
    var n :| 0 <= n <= |s[1..]| && Hasty(Parse(e.Append(s[1..][..n])), e.raw + s[1..]);
    hide TooEarly;
    BeginningAfter(p, s, n + 1);
    TooEarlyAt(p, s, n + 1);
  }

  /** After a beginning that does not fail, the question is the same for what is left. */
  lemma FailsLater(p: Glm, s: string)
    requires p.Valid() && p.Live() && p.tags.Shape() && Parse(p) == p && s != ""
    requires !Parse(p.Append([s[0]])).phase.Error?
    ensures TooEarly(p, s) <==> TooEarly(Parse(p.Append([s[0]])), s[1..])
  {
    hide Parse, GlmTags.Shape, TooEarly;
    if TooEarly(p, s) {
      EarlyBefore(p, s);
    }
    if TooEarly(Parse(p.Append([s[0]])), s[1..]) {
      EarlyAfter(p, s);
    }
  }

  lemma NothingTooEarly(p: Glm, s: string)
    requires p.Valid() && p.tags.Shape() && Parse(p) == p && !p.phase.Error? && (!p.Live() || s == "")
    ensures !TooEarly(p, s) && Feed(p, s) == Parse(p.Append(s))
  {
    hide GlmTags.Shape, Hasty;
    assert p.Append("") == p;
    if !p.Live() {
      EndedAbsorbs(p, s);
    }
    forall n | 0 <= n <= |s| ensures !Hasty(Parse(p.Append(s[..n])), p.raw + s) {
      assert s == "" ==> s[..n] == "";
      HastyFails(Parse(p.Append(s[..n])), p.raw + s);
    }
  }

  /**
   For every text: streaming it is one parse of the whole buffer if and only if no
   beginning of it shows the end of the call inside a key or a value that the text goes
   on to close.
   */
  lemma {:induction false} FeedIsOneParseIff(p: Glm, s: string)
    requires p.Valid() && p.tags.Shape() && Parse(p) == p && !p.phase.Error?
    ensures Feed(p, s) == Parse(p.Append(s)) <==> !TooEarly(p, s)
    decreases |s|
  {
    hide Parse, GlmTags.Shape, Hasty, TooEarly;
    if !p.Live() || s == "" {
      assert p.Append("") == p;
      NothingTooEarly(p, s);
    } else {
      var p1 := p.Append([s[0]]);
      var e := Parse(p1);
      assert p1.Append(s[1..]) == p.Append(s) by { assert [s[0]] + s[1..] == s; }
      if e.phase.Error? {
        EndedAbsorbs(e, s[1..]);
        ParseFails(p1, s[1..]);
        FailsAtOnce(p, s);
        assert p1.raw + s[1..] == p.raw + s;
      } else {
        ParseExtend(p1, "");
        assert p1.Append("") == p1 && e.Append("") == e;
        ParseExtend(p1, s[1..]);
        FeedIsOneParseIff(e, s[1..]);
        FailsLater(p, s);
      }
    }
  }
}
