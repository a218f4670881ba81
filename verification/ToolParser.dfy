/**
 The streaming tool-call parser of the agent, DSML syntax.

 `Parser` is the C struct `agent_dsml_parser` as a value; `Parse` is `agent_dsml_parse`
 run to quiescence and `Feed` is the byte loop of `agent_dsml_feed`.  The field
 `param_close_prefix` is recomputed after every byte, so here it is the function
 `ClosePrefix` of the other fields.
 */
module ToolParser {
  import opened Strings
  import opened ToolCalls

  /**
   The tag vocabulary of a syntax.  The proofs are about every vocabulary of the shape
   below; `DSML_TAGS` is the one the agent speaks.
   */
  datatype Tags = Tags(
    start: string,
    openInvoke: string,
    openParameter: string,
    closeToolCalls: string,
    closeInvoke: string,
    closeParameter: string,
    nameAttr: string,
    stringAttr: string,
    trueValue: string)
  {
    ghost predicate Shape() {
      && 1 <= |start| <= SEARCH_TAIL
      && ClosePrefixShape(closeToolCalls)
      && ClosePrefixShape(closeInvoke)
      && ClosePrefixShape(closeParameter)
    }
  }

  datatype Parser = Parser(
    tags: Tags,
    phase: Phase,
    searchTail: string,
    raw: string,
    parsePos: nat,
    current: Call,
    paramName: Option<string>,
    paramIsString: bool,
    paramValueStart: nat,
    glmAfterCall: bool,
    calls: seq<Call>,
    error: Reason)
  {
    /** agent_dsml_raw_append */
    function Append(x: string): Parser {
      this.(raw := raw + x)
    }

    /** The parser still consumes structure. */
    predicate Live() {
      phase.Structural? || phase.ParamValue?
    }

    /** DONE and ERROR: feed returns at once. */
    predicate Terminal() {
      phase.Done? || phase.Error?
    }

    ghost predicate Valid() {
      && tags.Shape()
      && parsePos <= |raw|
      && (phase.ParamValue? ==> paramValueStart == parsePos)
      && |searchTail| <= SEARCH_TAIL
    }

    /** agent_dsml_set_error */
    function Fail(why: Reason): Parser {
      this.(phase := Error, error := why)
    }
  }

  /** The three UTF-8 bytes of the fullwidth bar U+FF5C. */
  const BAR := "\U{EF}\U{BD}\U{9C}"

  const DSML_TAGS := Tags(
    "<\U{EF}\U{BD}\U{9C}DSML\U{EF}\U{BD}\U{9C}tool_calls>",
    "<\U{EF}\U{BD}\U{9C}DSML\U{EF}\U{BD}\U{9C}invoke",
    "<\U{EF}\U{BD}\U{9C}DSML\U{EF}\U{BD}\U{9C}parameter",
    "</\U{EF}\U{BD}\U{9C}DSML\U{EF}\U{BD}\U{9C}tool_calls",
    "</\U{EF}\U{BD}\U{9C}DSML\U{EF}\U{BD}\U{9C}invoke",
    "</\U{EF}\U{BD}\U{9C}DSML\U{EF}\U{BD}\U{9C}parameter",
    "name=\"",
    "string=\"",
    "true")

  /** sizeof(search_tail) */
  const SEARCH_TAIL := 64

  function Fresh(tags: Tags): Parser {
    Parser(tags, Search, "", "", 0, NO_CALL, None, false, 0, false, [], NoReason)
  }

  // ------------------------------------------------------------------------------------
  // Tags
  // ------------------------------------------------------------------------------------

  /** The shape all close-tag prefixes share: '<' opens them and occurs nowhere else. */
  ghost predicate ClosePrefixShape(prefix: string) {
    && |prefix| >= 1 && prefix[0] == '<'
    && (forall k :: 1 <= k < |prefix| ==> prefix[k] != '<')
    && (forall k :: 0 <= k < |prefix| ==> prefix[k] != '>')
  }

  lemma DsmlCloseTag(tag: string)
    requires tag == DSML_TAGS.closeToolCalls || tag == DSML_TAGS.closeInvoke || tag == DSML_TAGS.closeParameter
    ensures ClosePrefixShape(tag)
  {
  }

  lemma DsmlTagsShape()
    ensures DSML_TAGS.Shape()
  {
    hide ClosePrefixShape;
    DsmlCloseTag(DSML_TAGS.closeToolCalls);
    DsmlCloseTag(DSML_TAGS.closeInvoke);
    DsmlCloseTag(DSML_TAGS.closeParameter);
  }

  /** Where the optional second bar of a close tag ends. */
  function SkipBar(s: string, i: nat): (r: nat)
    requires i <= |s|
    ensures i <= r <= |s|
  {
    if OccursAt(s, i, BAR) then i + |BAR| else i
  }

  lemma SkipBarBytes(s: string, i: nat, k: nat)
    requires i <= |s| && i <= k < SkipBar(s, i)
    ensures s[k] != '<' && s[k] != '>'
  {
    assert s[k] == s[i..i + |BAR|][k - i];
  }

  /** The end of spaces, an optional bar, spaces and '>' starting at `i`, or 0. */
  function CloseTailEnd(s: string, i: nat): (e: nat)
    requires i <= |s|
    ensures e > 0 ==> i < e <= |s| && s[e - 1] == '>'
  {
    var c := SkipSpace(s, SkipBar(s, SkipSpace(s, i)));
    if c < |s| && s[c] == '>' then c + 1 else 0
  }

  lemma CloseTailBytes(s: string, i: nat, k: nat)
    requires i <= |s| && i <= k < CloseTailEnd(s, i) - 1
    ensures s[k] != '<' && s[k] != '>'
  {
    var a := SkipSpace(s, i);
    if a <= k < SkipBar(s, a) {
      SkipBarBytes(s, a, k);
    }
  }

  /**
   agent_dsml_close_tag_at: the end of the close tag spelled at offset `i`, or 0.
   Spaces and one more bar are tolerated before the '>'.
   */
  function CloseTagEnd(s: string, i: nat, prefix: string): (e: nat)
    ensures e > 0 ==> i + |prefix| < e <= |s|
  {
    if OccursAt(s, i, prefix) then CloseTailEnd(s, i + |prefix|) else 0
  }

  /** Only the first byte of a close tag is '<' and only its last is '>'. */
  lemma CloseTagBytes(s: string, i: nat, prefix: string)
    requires ClosePrefixShape(prefix)
    requires CloseTagEnd(s, i, prefix) > 0
    ensures s[i] == '<' && s[CloseTagEnd(s, i, prefix) - 1] == '>'
    ensures forall k :: i < k < CloseTagEnd(s, i, prefix) ==> s[k] != '<'
    ensures forall k :: i <= k < CloseTagEnd(s, i, prefix) - 1 ==> s[k] != '>'
  {
    var e := CloseTagEnd(s, i, prefix);
    forall k | i <= k < e - 1 ensures s[k] != '>' && (i < k ==> s[k] != '<') && (k == i ==> s[k] == '<') {
      if k < i + |prefix| {
        assert s[k] == s[i..i + |prefix|][k - i];
      } else {
        CloseTailBytes(s, i + |prefix|, k);
      }
    }
  }

  lemma SkipBarExtend(s: string, x: string, i: nat)
    requires i <= |s|
    ensures SkipBar(s, i) > i ==> SkipBar(s + x, i) == SkipBar(s, i)
    ensures i + |BAR| <= |s| ==> SkipBar(s + x, i) == SkipBar(s, i)
  {
    OccursAtExtend(s, x, i, BAR);
  }

  lemma CloseTailExtend(s: string, x: string, i: nat)
    requires i <= |s|
    ensures CloseTailEnd(s, i) > 0 ==> CloseTailEnd(s + x, i) == CloseTailEnd(s, i)
    ensures 0 < CloseTailEnd(s + x, i) <= |s| ==> CloseTailEnd(s, i) == CloseTailEnd(s + x, i)
  {
    var a := SkipSpace(s, i);
    SkipSpaceExtend(s, x, i);
    if a < |s| {
      SkipBarExtend(s, x, a);
      SkipSpaceExtend(s, x, SkipBar(s, a));
    }
  }

  /** A close tag is decided by its own bytes: appending neither breaks nor moves it. */
  lemma CloseTagExtend(s: string, x: string, i: nat, prefix: string)
    requires i <= |s|
    ensures CloseTagEnd(s, i, prefix) > 0
        ==> CloseTagEnd(s + x, i, prefix) == CloseTagEnd(s, i, prefix)
    ensures 0 < CloseTagEnd(s + x, i, prefix) <= |s|
        ==> CloseTagEnd(s, i, prefix) == CloseTagEnd(s + x, i, prefix)
  {
    hide CloseTailEnd;
    OccursAtExtend(s, x, i, prefix);
    if OccursAt(s, i, prefix) {
      CloseTailExtend(s, x, i + |prefix|);
    }
  }

  /** Once a '>' has arrived, no close tag starting before it can still be incomplete. */
  lemma CloseTagSettled(s: string, x: string, i: nat, prefix: string)
    requires ClosePrefixShape(prefix) && i <= |s|
    requires exists k :: i <= k < |s| && s[k] == '>'
    ensures CloseTagEnd(s + x, i, prefix) == CloseTagEnd(s, i, prefix)
  {
    CloseTagExtend(s, x, i, prefix);
    var k :| i <= k < |s| && s[k] == '>';
    assert (s + x)[k] == '>';
    if CloseTagEnd(s + x, i, prefix) > 0 {
      CloseTagBytes(s + x, i, prefix);
    }
  }

  /** agent_dsml_find_close_tag: the first offset at or after `i` where a close tag starts. */
  function FindCloseTag(s: string, i: nat, prefix: string): (r: Option<nat>)
    ensures r.Some? ==> i <= r.value < |s| && CloseTagEnd(s, r.value, prefix) > 0
    ensures r.Some? ==> forall k :: i <= k < r.value ==> CloseTagEnd(s, k, prefix) == 0
    ensures r.None? ==> forall k :: i <= k ==> CloseTagEnd(s, k, prefix) == 0
    decreases |s| - i
  {
    if i >= |s| then None
    else if CloseTagEnd(s, i, prefix) > 0 then Some(i)
    else FindCloseTag(s, i + 1, prefix)
  }

  lemma FindCloseTagUnique(s: string, i: nat, prefix: string, r: nat)
    requires i <= r && CloseTagEnd(s, r, prefix) > 0
    requires forall k :: i <= k < r ==> CloseTagEnd(s, k, prefix) == 0
    ensures FindCloseTag(s, i, prefix) == Some(r)
  {
  }

  /**
   The first complete close tag by end position is also the first by start position, so
   no bytes still to come can reveal an earlier one.
   */
  lemma FindCloseTagExtend(s: string, x: string, i: nat, prefix: string)
    requires ClosePrefixShape(prefix)
    requires FindCloseTag(s, i, prefix).Some?
    ensures FindCloseTag(s + x, i, prefix) == FindCloseTag(s, i, prefix)
  {
    var r := FindCloseTag(s, i, prefix).value;
    CloseTagExtend(s, x, r, prefix);
    var e := CloseTagEnd(s, r, prefix);
    CloseTagBytes(s, r, prefix);
    forall k | i <= k < r ensures CloseTagEnd(s + x, k, prefix) == 0 {
      assert k <= e - 1 < |s|;
      CloseTagSettled(s, x, k, prefix);
    }
    FindCloseTagUnique(s + x, i, prefix, r);
  }

  /** agent_dsml_open_tag_is, on a tag that ends at its first '>'. */
  predicate OpenTagIs(tag: string, prefix: string) {
    && OccursAt(tag, 0, prefix)
    && |prefix| < |tag|
    && (tag[|prefix|] == '>' || IsSpace(tag[|prefix|]))
  }

  /** agent_parse_attr; `pattern` is the attribute name followed by =" */
  function ParseAttr(tag: string, pattern: string): Option<string> {
    var at := Find(tag, pattern, 0);
    if at.None? then None
    else
      var from := at.value + |pattern|;
      var end := FindChar(tag, '"', from);
      if end.None? then None else Some(tag[from..end.value])
  }

  // ------------------------------------------------------------------------------------
  // agent_dsml_parse
  // ------------------------------------------------------------------------------------

  /** agent_tool_calls_push: a call without a name is not pushed and stays current. */
  function Push(p: Parser): Parser {
    if p.current.name.None? then p
    else p.(calls := p.calls + [p.current], current := NO_CALL)
  }

  /** One pass of the parse loop: `Wait` returns for lack of bytes, `Go` made progress. */
  datatype Outcome = Wait(p: Parser) | Go(p: Parser)

  function CloseParam(p: Parser): (r: Outcome)
    requires p.Valid() && p.phase.ParamValue?
    ensures r.p.Valid() && r.p.raw == p.raw
    ensures r.Go? ==> r.p.parsePos > p.parsePos
    ensures r.Wait? ==> r.p == p
  {
    var at := FindCloseTag(p.raw, p.paramValueStart, p.tags.closeParameter);
    if at.None? then Wait(p)
    else
      var name := if p.paramName.Some? then p.paramName.value else "";
      var arg := Arg(name, p.raw[p.paramValueStart..at.value], p.paramIsString);
      Go(p.(phase := Structural,
         current := p.current.(args := p.current.args + [arg]),
         paramName := None,
         parsePos := CloseTagEnd(p.raw, at.value, p.tags.closeParameter)))
  }

  /** What an opening tag does; the bytes behind it start at `end`. */
  function Opened(p: Parser, tag: string, end: nat): (r: Parser)
    requires p.Valid() && p.phase.Structural? && end <= |p.raw|
    ensures r.Valid() && r.raw == p.raw
    ensures r.Live() ==> r.parsePos == end
  {
    if OpenTagIs(tag, p.tags.openInvoke) then
      var name := ParseAttr(tag, p.tags.nameAttr);
      if name.None? then p.(current := NO_CALL).Fail(InvokeWithoutName)
      else p.(current := Call(name, []), parsePos := end)
    else if OpenTagIs(tag, p.tags.openParameter) then
      var name := ParseAttr(tag, p.tags.nameAttr);
      var isString := ParseAttr(tag, p.tags.stringAttr) == Some(p.tags.trueValue);
      if name.None? then
        p.(paramName := None, paramIsString := isString).Fail(ParameterWithoutName)
      else p.(paramName := name, paramIsString := isString, parsePos := end,
              paramValueStart := end, phase := ParamValue)
    else
      p.Fail(UnexpectedTag(if |tag| > 80 then tag[..80] else tag))
  }

  /** The opening tag spelled at the parse position and ending just before `end`. */
  function OpenTag(p: Parser, end: nat): (r: Parser)
    requires p.Valid() && p.phase.Structural? && p.parsePos < end <= |p.raw|
    ensures r.Valid() && r.raw == p.raw
    ensures r.Live() ==> r.parsePos == end
  {
    Opened(p, p.raw[p.parsePos..end], end)
  }

  /** The structural branch, the spaces before the tag already skipped. */
  function TagStep(q: Parser): (r: Outcome)
    requires q.Valid() && q.phase.Structural?
    ensures r.p.Valid() && r.p.raw == q.raw
    ensures r.Go? && r.p.Live() ==> r.p.parsePos > q.parsePos
    ensures r.Wait? ==> r.p == q
  {
    var endAll := CloseTagEnd(q.raw, q.parsePos, q.tags.closeToolCalls);
    var endInvoke := CloseTagEnd(q.raw, q.parsePos, q.tags.closeInvoke);
    if q.parsePos >= |q.raw| then Wait(q)
    else if endAll > 0 then Go(Push(q).(parsePos := endAll, phase := Done))
    else if endInvoke > 0 then Go(Push(q).(parsePos := endInvoke))
    else
      var gt := FindChar(q.raw, '>', q.parsePos);
      if gt.None? then Wait(q) else Go(OpenTag(q, gt.value + 1))
  }

  function SkipSpaces(p: Parser): (r: Parser)
    requires p.Valid() && p.phase.Structural?
    ensures r.Valid() && r == p.(parsePos := r.parsePos) && p.parsePos <= r.parsePos
  {
    p.(parsePos := SkipSpace(p.raw, p.parsePos))
  }

  function Step(p: Parser): (r: Outcome)
    requires p.Valid() && p.Live()
    ensures r.p.Valid() && r.p.raw == p.raw
    ensures r.Go? && r.p.Live() ==> r.p.parsePos > p.parsePos
    ensures !r.p.phase.Search? && (r.Wait? ==> r.p.phase == p.phase)
  {
    if p.phase.ParamValue? then CloseParam(p) else TagStep(SkipSpaces(p))
  }

  /** agent_dsml_parse: as much of the buffer as can be decided. */
  function Parse(p: Parser): (r: Parser)
    requires p.Valid()
    ensures r.Valid() && r.raw == p.raw
    decreases |p.raw| - p.parsePos
  {
    if !p.Live() then p
    else
      var o := Step(p);
      if o.Wait? || !o.p.Live() then o.p else Parse(o.p)
  }

  // ------------------------------------------------------------------------------------
  // agent_dsml_start and agent_dsml_feed
  // ------------------------------------------------------------------------------------

  /** agent_dsml_start: the buffer is seeded with the canonical marker. */
  function Start(p: Parser): (r: Parser)
    requires p.Valid()
    ensures r.Valid() && r.phase.Structural?
  {
    p.(phase := Structural, searchTail := "", raw := p.raw + p.tags.start, parsePos := |p.tags.start|)
  }

  /** The start detector of agent_dsml_feed: a window over the last bytes seen. */
  function SearchByte(p: Parser, c: char): (r: Parser)
    requires p.Valid() && p.phase.Search?
    ensures r.Valid()
  {
    var tail := (if |p.searchTail| == SEARCH_TAIL then p.searchTail[1..] else p.searchTail) + [c];
    var q := p.(searchTail := tail);
    if OccursAt(tail, |tail| - |p.tags.start|, p.tags.start) then Start(q) else q
  }

  function FeedByte(p: Parser, c: char): (r: Parser)
    requires p.Valid()
    ensures r.Valid()
  {
    if p.phase.Search? then SearchByte(p, c) else Parse(p.Append([c]))
  }

  /** The loop of agent_dsml_feed. */
  function Feed(p: Parser, s: string): (r: Parser)
    requires p.Valid()
    ensures r.Valid()
    decreases |s|
  {
    if s == "" then p else Feed(FeedByte(p, s[0]), s[1..])
  }

  /** agent_dsml_feed: nothing is fed to a finished parser. */
  function FeedCall(p: Parser, s: string): (r: Parser)
    requires p.Valid()
    ensures r.Valid()
  {
    if p.Terminal() then p else Feed(p, s)
  }

  function FeedCalls(p: Parser, chunks: seq<string>): (r: Parser)
    requires p.Valid()
    ensures r.Valid()
    decreases |chunks|
  {
    if chunks == [] then p else FeedCalls(FeedCall(p, chunks[0]), chunks[1..])
  }

  // ------------------------------------------------------------------------------------
  // Feeding byte by byte reaches the same parser as one parse of the whole buffer
  // ------------------------------------------------------------------------------------

  /** Progress made on a buffer is made unchanged on every extension of it. */
  lemma StepExtend(p: Parser, x: string)
    requires p.Valid() && p.Live()
    ensures Step(p).Go? ==> Step(p.Append(x)) == Go(Step(p).p.Append(x))
    ensures Step(p).Wait? ==> Step(Step(p).p.Append(x)) == Step(p.Append(x))
  {
    if p.phase.ParamValue? {
      ParamStepExtend(p, x);
    } else {
      StructuralStepExtend(p, x);
    }
  }

  lemma ParamStepExtend(p: Parser, x: string)
    requires p.Valid() && p.phase.ParamValue?
    ensures CloseParam(p).Go? ==> CloseParam(p.Append(x)) == Go(CloseParam(p).p.Append(x))
  {
    hide FindCloseTag, CloseTagEnd;
    var at := FindCloseTag(p.raw, p.paramValueStart, p.tags.closeParameter);
    if at.Some? {
      FindCloseTagExtend(p.raw, x, p.paramValueStart, p.tags.closeParameter);
      CloseTagExtend(p.raw, x, at.value, p.tags.closeParameter);
      assert (p.raw + x)[p.paramValueStart..at.value] == p.raw[p.paramValueStart..at.value];
    }
  }

  lemma TagGoHasGt(q: Parser)
    requires q.Valid() && q.phase.Structural? && TagStep(q).Go?
    ensures FindChar(q.raw, '>', q.parsePos).Some?
  {
    if CloseTagEnd(q.raw, q.parsePos, q.tags.closeToolCalls) > 0 {
      CloseTagBytes(q.raw, q.parsePos, q.tags.closeToolCalls);
    } else if CloseTagEnd(q.raw, q.parsePos, q.tags.closeInvoke) > 0 {
      CloseTagBytes(q.raw, q.parsePos, q.tags.closeInvoke);
    }
  }

  lemma OpenTagExtend(q: Parser, end: nat, x: string)
    requires q.Valid() && q.phase.Structural? && q.parsePos < end <= |q.raw|
    ensures OpenTag(q.Append(x), end) == OpenTag(q, end).Append(x)
  {
    hide ParseAttr, OpenTagIs, Tags.Shape;
    assert (q.raw + x)[q.parsePos..end] == q.raw[q.parsePos..end];
  }

  lemma TagStepExtend(q: Parser, x: string)
    requires q.Valid() && q.phase.Structural? && TagStep(q).Go?
    ensures TagStep(q.Append(x)) == Go(TagStep(q).p.Append(x))
  {
    hide OpenTag, FindChar, CloseTagEnd;
    TagGoHasGt(q);
    var gt := FindChar(q.raw, '>', q.parsePos).value;
    FindCharExtend(q.raw, x, '>', q.parsePos);
    CloseTagSettled(q.raw, x, q.parsePos, q.tags.closeToolCalls);
    CloseTagSettled(q.raw, x, q.parsePos, q.tags.closeInvoke);
    OpenTagExtend(q, gt + 1, x);
  }

  lemma StructuralStepExtend(p: Parser, x: string)
    requires p.Valid() && p.phase.Structural?
    ensures Step(p).Go? ==> Step(p.Append(x)) == Go(Step(p).p.Append(x))
    ensures Step(p).Wait? ==> Step(Step(p).p.Append(x)) == Step(p.Append(x))
  {
    SkipSpaceExtend(p.raw, x, p.parsePos);
    var q := SkipSpaces(p);
    if TagStep(q).Go? {
      TagStepExtend(q, x);
      assert SkipSpaces(p.Append(x)) == q.Append(x);
    } else {
      assert SkipSpaces(q.Append(x)) == SkipSpaces(p.Append(x));
    }
  }

  /** Parsing early never changes what parsing later decides. */
  lemma {:induction false} ParseExtend(p: Parser, x: string)
    requires p.Valid()
    ensures Parse(Parse(p).Append(x)) == Parse(p.Append(x))
    decreases |p.raw| - p.parsePos
  {
    if p.Live() {
      StepExtend(p, x);
      var o := Step(p);
      if o.Go? && o.p.Live() {
        ParseExtend(o.p, x);
      }
    }
  }

  lemma ParseIdempotent(p: Parser)
    requires p.Valid()
    ensures Parse(Parse(p)) == Parse(p)
  {
    ParseExtend(p, "");
    assert Parse(p).Append("") == Parse(p) && p.Append("") == p;
  }

  /**
   Batch equivalence: from any parser inside or past a stanza, feeding `s` byte by byte
   is one parse of the whole buffer.
   */
  lemma {:induction false} FeedIsOneParse(p: Parser, s: string)
    requires p.Valid() && !p.phase.Search? && Parse(p) == p
    ensures Feed(p, s) == Parse(p.Append(s))
    decreases |s|
  {
    if s == "" {
      assert p.Append(s) == p;
    } else {
      var q := FeedByte(p, s[0]);
      ParseIdempotent(p.Append([s[0]]));
      ParsePhase(p.Append([s[0]]));
      FeedIsOneParse(q, s[1..]);
      ParseExtend(p.Append([s[0]]), s[1..]);
      assert p.Append([s[0]]).Append(s[1..]) == p.Append(s) by {
        assert s == [s[0]] + s[1..];
      }
    }
  }

  lemma {:induction false} ParsePhase(p: Parser)
    requires p.Valid()
    ensures Parse(p).phase.Search? <==> p.phase.Search?
    decreases |p.raw| - p.parsePos
  {
    hide Step;
    if p.Live() && Step(p).Go? && Step(p).p.Live() {
      ParsePhase(Step(p).p);
    }
  }

  // ------------------------------------------------------------------------------------
  // How the text was cut does not matter; DONE and ERROR absorb; calls only grow
  // ------------------------------------------------------------------------------------

  lemma {:induction false} FeedSplit(p: Parser, a: string, b: string)
    requires p.Valid()
    ensures Feed(p, a + b) == Feed(Feed(p, a), b)
    decreases |a|
  {
    hide FeedByte;
    if a == "" {
      assert a + b == b;
    } else {
      assert (a + b)[0] == a[0] && (a + b)[1..] == a[1..] + b;
      FeedSplit(FeedByte(p, a[0]), a[1..], b);
    }
  }

  /** Inside one feed call a finished parser keeps recording bytes and decides nothing. */
  lemma {:induction false} TerminalAbsorbs(p: Parser, s: string)
    requires p.Valid() && p.Terminal()
    ensures Feed(p, s) == p.Append(s)
    decreases |s|
  {
    if s == "" {
      assert p.Append(s) == p;
    } else {
      TerminalAbsorbs(p.Append([s[0]]), s[1..]);
      assert p.raw + [s[0]] + s[1..] == p.raw + s;
    }
  }

  lemma {:induction false} FinishedCalls(p: Parser, chunks: seq<string>)
    requires p.Valid() && p.Terminal()
    ensures FeedCalls(p, chunks) == p
    decreases |chunks|
  {
    if chunks != [] {
      FinishedCalls(p, chunks[1..]);
    }
  }

  /**
   Feeding a text in any chunks ends in the parser that feeding it at once ends in, up to
   the bytes recorded after a finished stanza.
   */
  lemma {:induction false} ChunkingIrrelevant(p: Parser, chunks: seq<string>)
    requires p.Valid()
    ensures var whole := Feed(p, Concat(chunks));
            var parts := FeedCalls(p, chunks);
            && parts.(raw := whole.raw) == whole
            && (!whole.Terminal() ==> parts == whole)
    decreases |chunks|
  {
    hide FeedByte;
    if p.Terminal() {
      FinishedCalls(p, chunks);
      TerminalAbsorbs(p, Concat(chunks));
    } else if chunks != [] {
      FeedSplit(p, chunks[0], Concat(chunks[1..]));
      ChunkingIrrelevant(Feed(p, chunks[0]), chunks[1..]);
    }
  }

  lemma StepCallsGrow(p: Parser)
    requires p.Valid() && p.Live()
    ensures p.calls <= Step(p).p.calls
  {
    hide CloseTagEnd, FindCloseTag, FindChar, OpenTagIs, ParseAttr, Tags.Shape;
  }

  lemma {:induction false} ParseCallsGrow(p: Parser)
    requires p.Valid()
    ensures p.calls <= Parse(p).calls
    decreases |p.raw| - p.parsePos
  {
    hide Step, Tags.Shape;
    if p.Live() {
      StepCallsGrow(p);
      if Step(p).Go? && Step(p).p.Live() {
        ParseCallsGrow(Step(p).p);
      }
    }
  }

  /** Calls already recognised are never dropped, reordered or changed. */
  lemma {:induction false} CallsGrow(p: Parser, s: string)
    requires p.Valid()
    ensures p.calls <= Feed(p, s).calls
    decreases |s|
  {
    if s != "" {
      if !p.phase.Search? {
        ParseCallsGrow(p.Append([s[0]]));
      }
      CallsGrow(FeedByte(p, s[0]), s[1..]);
    }
  }

  // ------------------------------------------------------------------------------------
  // The start detector
  // ------------------------------------------------------------------------------------

  /** A parser that has just seen the start marker. */
  function Started(tags: Tags): (r: Parser)
    requires tags.Shape()
    ensures r.Valid() && r.phase.Structural?
  {
    Start(Fresh(tags))
  }

  lemma LastNPush(s: string, c: char)
    ensures (if |LastN(s, SEARCH_TAIL)| == SEARCH_TAIL then LastN(s, SEARCH_TAIL)[1..]
             else LastN(s, SEARCH_TAIL)) + [c] == LastN(s + [c], SEARCH_TAIL)
  {
  }

  /** One more byte either completes the marker or slides the window. */
  lemma SearchStep(tags: Tags, s: string, c: char)
    requires tags.Shape()
    requires Feed(Fresh(tags), s) == Fresh(tags).(searchTail := LastN(s, SEARCH_TAIL))
    ensures Feed(Fresh(tags), s + [c]) ==
            if OccursAt(s + [c], |s + [c]| - |tags.start|, tags.start) then Started(tags)
            else Fresh(tags).(searchTail := LastN(s + [c], SEARCH_TAIL))
  {
    hide OccursAt, LastN, Parse, ClosePrefixShape;
    FeedSplit(Fresh(tags), s, [c]);
    LastNPush(s, c);
    LastNEnds(s + [c], SEARCH_TAIL, tags.start);
    var p := Feed(Fresh(tags), s);
    assert [c][1..] == "" && Feed(SearchByte(p, c), "") == SearchByte(p, c);
    assert Feed(p, [c]) == SearchByte(p, c);
  }

  /** While no marker has been completed the detector holds exactly its window. */
  lemma {:induction false} SearchWindow(tags: Tags, s: string)
    requires tags.Shape()
    requires forall i :: !OccursAt(s, i, tags.start)
    ensures Feed(Fresh(tags), s) == Fresh(tags).(searchTail := LastN(s, SEARCH_TAIL))
    decreases |s|
  {
    if s != "" {
      var init, c := s[..|s| - 1], s[|s| - 1];
      assert s == init + [c];
      forall i ensures !OccursAt(init, i, tags.start) {
        OccursAtExtend(init, [c], i, tags.start);
      }
      SearchWindow(tags, init);
      SearchStep(tags, init, c);
    }
  }

  lemma NoEarlierMarker(s: string, p: string, i: nat, init: string)
    requires |p| > 0 && Find(s, p, 0) == Some(i) && init == s[..i + |p| - 1]
    ensures forall k :: !OccursAt(init, k, p)
  {
    forall k ensures !OccursAt(init, k, p) {
      OccursAtExtend(init, s[i + |p| - 1..], k, p);
      assert init + s[i + |p| - 1..] == s;
    }
  }

  /** The parser starts at the end of the first marker in the text, wherever it is cut. */
  lemma SearchFindsFirst(tags: Tags, s: string, i: nat)
    requires tags.Shape()
    requires Find(s, tags.start, 0) == Some(i)
    ensures Feed(Fresh(tags), s[..i + |tags.start|]) == Started(tags)
  {
    hide Feed;
    var e := i + |tags.start|;
    var init, c := s[..e - 1], s[e - 1];
    assert s[..e] == init + [c];
    NoEarlierMarker(s, tags.start, i, init);
    SearchWindow(tags, init);
    SearchStep(tags, init, c);
    assert s[..e][i..e] == s[i..e];
  }

  /** What follows the first marker of a text is parsed as one buffer. */
  lemma FeedFromMarker(tags: Tags, s: string, i: nat)
    requires tags.Shape() && Find(s, tags.start, 0) == Some(i)
    ensures Feed(Fresh(tags), s) == Parse(Started(tags).Append(s[i + |tags.start|..]))
  {
    hide Feed, Parse, SkipSpace;
    var e := i + |tags.start|;
    SearchFindsFirst(tags, s, i);
    FeedSplit(Fresh(tags), s[..e], s[e..]);
    assert s == s[..e] + s[e..];
    StartedWaits(tags);
    FeedIsOneParse(Started(tags), s[e..]);
  }

  lemma StartedWaits(tags: Tags)
    requires tags.Shape()
    ensures Parse(Started(tags)) == Started(tags)
  {
  }

  /** A whole assistant text: silence, or one parse of what follows its first marker. */
  lemma FeedText(tags: Tags, s: string)
    requires tags.Shape()
    ensures match Find(s, tags.start, 0)
            case None => Feed(Fresh(tags), s).phase.Search?
            case Some(i) => Feed(Fresh(tags), s) == Parse(Started(tags).Append(s[i + |tags.start|..]))
  {
    hide Feed, Parse;
    match Find(s, tags.start, 0)
    case None => SearchWindow(tags, s);
    case Some(i) => FeedFromMarker(tags, s, i);
  }
}
