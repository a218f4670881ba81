/**
 Printing tool calls in the documented DSML syntax and parsing them back.

 The printer follows the syntax reminder the agent gives its model.  A value survives
 the trip exactly when it spells no parameter close tag; a name may hold any byte but
 '"' and '>', and the name of a string parameter must not end in `string=`.
 */
module DsmlRoundTrip {
  import opened Strings
  import opened ToolCalls
  import opened ToolParser
  import opened ParserShift

  // ------------------------------------------------------------------------------------
  // The printer
  // ------------------------------------------------------------------------------------

  function Flag(t: Tags, isString: bool): string {
    if isString then t.trueValue else "false"
  }

  /** The bytes of a parameter tag before the value of its `string` attribute. */
  function BeforeFlag(t: Tags, name: string): string {
    t.openParameter + " " + t.nameAttr + name + "\" "
  }

  /** The text of one parameter's opening tag. */
  function ParamTag(t: Tags, a: Arg): string {
    BeforeFlag(t, a.name) + t.stringAttr + Flag(t, a.isString) + "\"" + ">"
  }

  function PrintArg(t: Tags, a: Arg): string {
    ParamTag(t, a) + a.value + t.closeParameter + ">" + "\n"
  }

  function PrintArgs(t: Tags, args: seq<Arg>): string {
    if args == [] then "" else PrintArg(t, args[0]) + PrintArgs(t, args[1..])
  }

  function InvokeTag(t: Tags, name: string): string {
    t.openInvoke + " " + t.nameAttr + name + "\"" + ">"
  }

  function PrintCall(t: Tags, c: Call): string {
    InvokeTag(t, NameOf(c)) + "\n" + PrintArgs(t, c.args) + t.closeInvoke + ">" + "\n"
  }

  /** All calls and the tag that closes the stanza. */
  function PrintCalls(t: Tags, calls: seq<Call>): string {
    if calls == [] then t.closeToolCalls + ">"
    else PrintCall(t, calls[0]) + PrintCalls(t, calls[1..])
  }

  // ------------------------------------------------------------------------------------
  // What can be printed
  // ------------------------------------------------------------------------------------

  ghost predicate NameBytes(name: string) {
    forall k :: 0 <= k < |name| ==> name[k] != '"' && name[k] != '>'
  }

  /** No parameter close tag is spelled anywhere inside the value. */
  ghost predicate CloseFree(t: Tags, value: string) {
    forall k :: 0 <= k < |value| ==> CloseTagEnd(value, k, t.closeParameter) == 0
  }

  ghost predicate EndsWith(s: string, e: string) {
    OccursAt(s, |s| - |e|, e)
  }

  /** The attribute pattern without its opening quote. */
  function Stem(pattern: string): string {
    if pattern == "" then "" else pattern[..|pattern| - 1]
  }

  ghost predicate Printable(t: Tags, a: Arg) {
    && NameBytes(a.name)
    && (a.isString ==> !EndsWith(a.name, Stem(t.stringAttr)))
    && CloseFree(t, a.value)
  }

  ghost predicate PrintableCall(t: Tags, c: Call) {
    && c.name.Some? && NameBytes(c.name.value)
    && forall k :: 0 <= k < |c.args| ==> Printable(t, c.args[k])
  }

  // ------------------------------------------------------------------------------------
  // The vocabulary
  // ------------------------------------------------------------------------------------

  ghost predicate Differ(a: string, b: string) {
    exists k :: 0 <= k < |a| && k < |b| && a[k] != b[k]
  }

  ghost predicate OpenShape(o: string) {
    && |o| >= 2 && o[0] == '<' && o[1] != '/'
    && NameBytes(o)
  }

  ghost predicate AttrShape(a: string) {
    && |a| >= 3 && a[|a| - 1] == '"'
    && NameBytes(Stem(a))
  }

  /** What the proofs need to know about the tags, beyond `Tags.Shape`. */
  ghost predicate Vocabulary(t: Tags) {
    && t.Shape()
    && OpenShape(t.openInvoke) && OpenShape(t.openParameter)
    && Differ(t.openParameter, t.openInvoke)
    && |t.closeToolCalls| >= 2 && t.closeToolCalls[1] == '/'
    && |t.closeInvoke| >= 2 && t.closeInvoke[1] == '/'
    && Differ(t.closeInvoke, t.closeToolCalls)
    && AttrShape(t.nameAttr) && AttrShape(t.stringAttr)
    && t.nameAttr[|t.nameAttr| - 3] != t.stringAttr[|t.stringAttr| - 3]
    && |t.trueValue| > 0 && t.trueValue[0] != ' ' && t.trueValue != "false"
    && NameBytes(t.trueValue)
  }

  lemma DsmlOpenTags()
    ensures OpenShape(DSML_TAGS.openInvoke) && OpenShape(DSML_TAGS.openParameter)
  {
  }

  lemma DsmlDistinctTags()
    ensures Differ(DSML_TAGS.openParameter, DSML_TAGS.openInvoke)
    ensures Differ(DSML_TAGS.closeInvoke, DSML_TAGS.closeToolCalls)
  {
    var t := DSML_TAGS;
    assert t.openParameter[11] == 'p' && t.openInvoke[11] == 'i';
    assert t.closeInvoke[12] == 'i' && t.closeToolCalls[12] == 't';
  }

  lemma DsmlAttributes()
    ensures AttrShape(DSML_TAGS.nameAttr) && AttrShape(DSML_TAGS.stringAttr)
    ensures NameBytes(DSML_TAGS.trueValue)
  {
  }

  lemma DsmlVocabulary()
    ensures Vocabulary(DSML_TAGS)
  {
    hide OpenShape, AttrShape, Differ, NameBytes, Tags.Shape;
    DsmlTagsShape();
    DsmlOpenTags();
    DsmlDistinctTags();
    DsmlAttributes();
    var t := DSML_TAGS;
    assert t.nameAttr[|t.nameAttr| - 3] == 'e' && t.stringAttr[|t.stringAttr| - 3] == 'g';
    assert t.trueValue[0] == 't';
  }

  lemma DifferNotBoth(s: string, a: string, b: string)
    requires Differ(a, b) && OccursAt(s, 0, a)
    ensures !OccursAt(s, 0, b)
  {
    var k :| 0 <= k < |a| && k < |b| && a[k] != b[k];
    OccursByte(s, 0, a, k);
    Mismatch(s, 0, b, k);
  }

  // ------------------------------------------------------------------------------------
  // Attributes
  // ------------------------------------------------------------------------------------

  /** An attribute is read back when its pattern cannot be matched earlier in the tag. */
  lemma AttrRead(pre: string, pattern: string, value: string, post: string)
    requires |pattern| > 0
    requires forall k :: 0 <= k < |value| ==> value[k] != '"'
    requires var tag := pre + pattern + value + "\"" + post;
             forall i :: 0 <= i < |pre| ==> !OccursAt(tag, i, pattern)
    ensures ParseAttr(pre + pattern + value + "\"" + post, pattern) == Some(value)
  {
    var tag := pre + pattern + value + "\"" + post;
    var from := |pre| + |pattern|;
    assert tag[|pre|..from] == pattern;
    FindUnique(tag, pattern, 0, |pre|);
    FindCharUnique(tag, '"', from, from + |value|);
    assert tag[from..from + |value|] == value;
  }

  /** A pattern ends in a quote, so it cannot be matched before the first quote. */
  lemma NoQuoteNoMatch(tag: string, pattern: string, i: nat, n: nat)
    requires |pattern| > 0 && pattern[|pattern| - 1] == '"'
    requires forall k :: 0 <= k < n && k < |tag| ==> tag[k] != '"'
    requires i + |pattern| <= n
    ensures !OccursAt(tag, i, pattern)
  {
    Mismatch(tag, i, pattern, |pattern| - 1);
  }

  /** The first attribute of a tag is found whatever bytes its value holds. */
  lemma NameAttrRead(t: Tags, open: string, name: string, post: string)
    requires Vocabulary(t) && OpenShape(open) && NameBytes(name)
    ensures ParseAttr(open + " " + t.nameAttr + name + "\"" + post, t.nameAttr) == Some(name)
  {
    hide ParseAttr, OccursAt;
    var pre := open + " ";
    var tag := pre + t.nameAttr + name + "\"" + post;
    var stem := Stem(t.nameAttr);
    assert t.nameAttr == stem + "\"";
    forall k | 0 <= k < |pre| + |stem| ensures tag[k] != '"' {
      if k >= |pre| { assert tag[k] == stem[k - |pre|]; }
    }
    forall i | 0 <= i < |pre| ensures !OccursAt(tag, i, t.nameAttr) {
      NoQuoteNoMatch(tag, t.nameAttr, i, |pre| + |stem|);
    }
    AttrRead(pre, t.nameAttr, name, post);
  }

  /** Offsets of the two quotes around the parameter's name. */
  function Quote1(t: Tags): int {
    |t.openParameter| + |t.nameAttr|
  }

  function Quote2(t: Tags, name: string): int {
    Quote1(t) + 1 + |name|
  }

  lemma QuotesOnly(t: Tags, name: string, k: int)
    requires Vocabulary(t) && NameBytes(name)
    requires 0 <= k < |BeforeFlag(t, name)|
    ensures BeforeFlag(t, name)[k] == '"' ==> k == Quote1(t) || k == Quote2(t, name)
  {
    var open := t.openParameter + " ";
    var s := BeforeFlag(t, name);
    assert s == open + t.nameAttr + name + "\" ";
    if k < |t.openParameter| {
      assert s[k] == t.openParameter[k];
    } else if |open| <= k < Quote1(t) {
      assert s[k] == Stem(t.nameAttr)[k - |open|];
    } else if Quote1(t) < k < Quote2(t, name) {
      assert s[k] == name[k - Quote1(t) - 1];
    }
  }

  lemma QuoteLast(t: Tags)
    requires Vocabulary(t)
    ensures var n := |t.stringAttr|;
            && n >= 3 && t.stringAttr[n - 1] == '"'
            && (forall k :: 0 <= k < n - 1 ==> t.stringAttr[k] != '"')
            && |t.nameAttr| >= 3 && t.nameAttr[|t.nameAttr| - 3] != t.stringAttr[n - 3]
  {
    var pat := t.stringAttr;
    forall k | 0 <= k < |pat| - 1 ensures pat[k] != '"' {
      assert pat[k] == Stem(pat)[k];
    }
  }

  lemma FirstQuote(t: Tags, name: string)
    requires Vocabulary(t)
    ensures 2 <= Quote1(t) < |BeforeFlag(t, name)|
    ensures BeforeFlag(t, name)[Quote1(t)] == '"'
    ensures BeforeFlag(t, name)[Quote1(t) - 2] == t.nameAttr[|t.nameAttr| - 3]
  {
  }

  /**
   The `string` pattern can be matched before its attribute only across the closing
   quote of a name that ends in `string=`.
   */
  lemma StringMatch(t: Tags, name: string, rest: string, i: int)
    requires Vocabulary(t) && NameBytes(name)
    requires 0 <= i < |BeforeFlag(t, name)|
    requires OccursAt(BeforeFlag(t, name) + t.stringAttr + rest, i, t.stringAttr)
    ensures EndsWith(name, Stem(t.stringAttr)) && i + |t.stringAttr| == Quote2(t, name) + 1
  {
    var pre, pat := BeforeFlag(t, name), t.stringAttr;
    var s := pre + pat + rest;
    var n := |pat|;
    hide Vocabulary, EndsWith, OccursAt, NameBytes;
    QuoteLast(t);
    OccursByte(s, i, pat, n - 1);
    OccursByte(s, i, pat, n - 3);
    var q := i + n - 1;
    assert pre[q] == '"';
    QuotesOnly(t, name, q);
    FirstQuote(t, name);
    if i <= Quote1(t) < q {
      OccursByte(s, i, pat, Quote1(t) - i);
    }
    StemTail(t, name, rest, i);
  }

  lemma StemTail(t: Tags, name: string, rest: string, i: int)
    requires Vocabulary(t) && |t.stringAttr| - 1 <= |name|
    requires i + |t.stringAttr| == Quote2(t, name) + 1
    requires OccursAt(BeforeFlag(t, name) + t.stringAttr + rest, i, t.stringAttr)
    ensures EndsWith(name, Stem(t.stringAttr))
  {
    var s := BeforeFlag(t, name) + t.stringAttr + rest;
    var n := |t.stringAttr| - 1;
    assert s[i..i + n] == name[|name| - n..];
    assert s[i..i + n] == s[i..i + |t.stringAttr|][..n];
    assert name[|name| - n..] == name[|name| - n..|name|];
  }

  lemma FlagReadPlain(t: Tags, a: Arg)
    requires Vocabulary(t) && NameBytes(a.name) && !EndsWith(a.name, Stem(t.stringAttr))
    ensures ParseAttr(ParamTag(t, a), t.stringAttr) == Some(Flag(t, a.isString))
  {
    hide ParseAttr, OccursAt, Vocabulary;
    var pre, flag := BeforeFlag(t, a.name), Flag(t, a.isString);
    var rest := flag + "\"" + ">";
    assert ParamTag(t, a) == pre + t.stringAttr + rest;
    forall i | 0 <= i < |pre| ensures !OccursAt(ParamTag(t, a), i, t.stringAttr) {
      if OccursAt(ParamTag(t, a), i, t.stringAttr) {
        StringMatch(t, a.name, rest, i);
      }
    }
    FlagBytes(t, a.isString);
    AttrRead(pre, t.stringAttr, flag, ">");
  }

  lemma FlagBytes(t: Tags, isString: bool)
    requires Vocabulary(t)
    ensures NameBytes(Flag(t, isString)) && |t.stringAttr| > 0
    ensures Flag(t, isString) == t.trueValue <==> isString
  {
  }

  lemma EndSplit(s: string, e: string)
    requires EndsWith(s, e)
    ensures |e| <= |s| && s == s[..|s| - |e|] + e
  {
    assert s[|s| - |e|..] == s[|s| - |e|..|s|];
  }

  /** A name ending in `string=` swallows the attribute that follows it. */
  lemma FlagReadSwallowed(t: Tags, a: Arg)
    requires Vocabulary(t) && NameBytes(a.name) && EndsWith(a.name, Stem(t.stringAttr))
    ensures ParseAttr(ParamTag(t, a), t.stringAttr) == Some(" " + Stem(t.stringAttr))
  {
    hide ParseAttr, OccursAt, Vocabulary, EndsWith;
    VocabularyFacts(t);
    var pat, stem := t.stringAttr, Stem(t.stringAttr);
    var flag := Flag(t, a.isString);
    var tag := ParamTag(t, a);
    EndSplit(a.name, stem);
    var cut := |a.name| - |stem|;
    var pre := t.openParameter + " " + t.nameAttr + a.name[..cut];
    var post := flag + "\"" + ">";
    assert tag == pre + pat + (" " + stem) + "\"" + post;
    assert tag == BeforeFlag(t, a.name) + pat + post;
    SwallowedFirst(t, a, pre, post);
    AttrRead(pre, pat, " " + stem, post);
  }

  lemma SwallowedFirst(t: Tags, a: Arg, pre: string, post: string)
    requires Vocabulary(t) && NameBytes(a.name)
    requires |pre| == Quote2(t, a.name) + 1 - |t.stringAttr|
    ensures forall i :: 0 <= i < |pre| ==>
              !OccursAt(BeforeFlag(t, a.name) + t.stringAttr + post, i, t.stringAttr)
  {
    hide OccursAt;
    var s := BeforeFlag(t, a.name) + t.stringAttr + post;
    forall i | 0 <= i < |pre| ensures !OccursAt(s, i, t.stringAttr) {
      if OccursAt(s, i, t.stringAttr) {
        StringMatch(t, a.name, post, i);
      }
    }
  }

  /** The flag is read back as printed unless the name swallows it. */
  lemma FlagRead(t: Tags, a: Arg)
    requires Vocabulary(t) && NameBytes(a.name)
    ensures ParseAttr(ParamTag(t, a), t.stringAttr) == Some(t.trueValue)
            <==> a.isString && !EndsWith(a.name, Stem(t.stringAttr))
  {
    hide ParseAttr, EndsWith;
    FlagBytes(t, a.isString);
    if EndsWith(a.name, Stem(t.stringAttr)) {
      FlagReadSwallowed(t, a);
      assert (" " + Stem(t.stringAttr))[0] == ' ';
    } else {
      FlagReadPlain(t, a);
    }
  }

  // ------------------------------------------------------------------------------------
  // One tag at a time, the text still to be parsed at offset 0
  // ------------------------------------------------------------------------------------

  /** A parser between tags with the given text ahead of it. */
  ghost predicate At(p: Parser, text: string) {
    && p.Valid() && Vocabulary(p.tags)
    && p.phase.Structural? && p.parsePos == 0 && p.paramValueStart == 0 && p.raw == text
  }

  /** A tag whose only '>' is its last byte and that does not close anything. */
  ghost predicate OpeningTag(tag: string) {
    && |tag| >= 3 && tag[0] == '<' && tag[1] != '/' && tag[|tag| - 1] == '>'
    && forall k :: 0 <= k < |tag| - 1 ==> tag[k] != '>'
  }

  lemma NoCloseTag(s: string, prefix: string)
    requires |prefix| >= 2 && |s| >= 2 && s[1] != prefix[1]
    ensures CloseTagEnd(s, 0, prefix) == 0
  {
    Mismatch(s, 0, prefix, 1);
  }

  lemma OpeningStep(p: Parser, tag: string, rest: string)
    requires At(p, tag + rest) && OpeningTag(tag)
    ensures Step(p) == Go(OpenTag(p, |tag|))
  {
    hide OpenTag, CloseTagEnd, FindChar;
    var s := tag + rest;
    assert s[0] == '<' && s[1] != '/' && s[|tag| - 1] == '>';
    SkipSpaceUnique(s, 0, 0);
    assert SkipSpaces(p) == p;
    NoCloseTag(s, p.tags.closeToolCalls);
    NoCloseTag(s, p.tags.closeInvoke);
    FindCharUnique(s, '>', 0, |tag| - 1);
  }

  lemma InvokeTagShape(t: Tags, name: string)
    requires Vocabulary(t) && NameBytes(name)
    ensures OpeningTag(InvokeTag(t, name)) && OpenTagIs(InvokeTag(t, name), t.openInvoke)
  {
    hide Vocabulary;
    VocabularyFacts(t);
    var tag := InvokeTag(t, name);
    assert tag == t.openInvoke + (" " + t.nameAttr + name + "\"" + ">");
    assert tag[0..0 + |t.openInvoke|] == t.openInvoke;
    assert tag == t.openInvoke + " " + Stem(t.nameAttr) + "\"" + name + "\"" + ">";
  }

  /** Reading an invoke tag opens a call with exactly the printed name. */
  lemma ReadInvoke(p: Parser, name: string, rest: string) returns (q: Parser)
    requires At(p, InvokeTag(p.tags, name) + rest) && NameBytes(name)
    ensures q == p.(raw := rest, current := Call(Some(name), [])) && At(q, rest)
    ensures Rest(Parse(p)) == Rest(Parse(q))
  {
    var tag := InvokeTag(p.tags, name);
    InvokeTagShape(p.tags, name);
    OpeningStep(p, tag, rest);
    NameAttrRead(p.tags, p.tags.openInvoke, name, ">");
    assert p.raw[0..|tag|] == tag && p.raw[|tag|..] == rest;
    q := ReadStep(p);
  }

  /** A step that leaves the parser live is invisible in the outcome. */
  lemma ReadStep(p: Parser) returns (q: Parser)
    requires p.Valid() && p.Live() && Step(p).Go? && Step(p).p.Live()
    ensures q == Rest(Step(p).p)
    ensures Rest(Parse(p)) == Rest(Parse(q))
  {
    hide Step;
    q := Rest(Step(p).p);
    ParseRest(Step(p).p);
  }

  /** A parameter tag without its '>' is its opening followed by bytes other than '>'. */
  lemma ParamTagBytes(t: Tags, a: Arg)
    requires Vocabulary(t) && NameBytes(a.name)
    ensures var s := BeforeFlag(t, a.name) + t.stringAttr + Flag(t, a.isString) + "\"";
            forall k :: 0 <= k < |s| ==> s[k] != '>'
  {
    hide Vocabulary;
    VocabularyFacts(t);
    FlagBytes(t, a.isString);
    var flag := Flag(t, a.isString);
    var s := BeforeFlag(t, a.name) + t.stringAttr + flag + "\"";
    var n1, n2 := Stem(t.nameAttr), Stem(t.stringAttr);
    assert s == t.openParameter + " " + n1 + "\"" + a.name + "\" " + n2 + "\"" + flag + "\"";
  }

  lemma ParamTagShape(t: Tags, a: Arg)
    requires Vocabulary(t) && NameBytes(a.name)
    ensures OpeningTag(ParamTag(t, a))
    ensures OpenTagIs(ParamTag(t, a), t.openParameter) && !OpenTagIs(ParamTag(t, a), t.openInvoke)
  {
    hide Vocabulary, EndsWith, Differ, ClosePrefixShape, Stem;
    var tag := ParamTag(t, a);
    ParamTagBytes(t, a);
    VocabularyFacts(t);
    var more := t.nameAttr + a.name + "\" " + t.stringAttr + Flag(t, a.isString) + "\"" + ">";
    assert tag == t.openParameter + (" " + more);
    assert tag[0..0 + |t.openParameter|] == t.openParameter;
    DifferNotBoth(tag, t.openParameter, t.openInvoke);
  }

  lemma VocabularyFacts(t: Tags)
    requires Vocabulary(t)
    ensures t.Shape()
    ensures OpenShape(t.openParameter) && OpenShape(t.openInvoke) && Differ(t.openParameter, t.openInvoke)
    ensures NameBytes(Stem(t.nameAttr)) && NameBytes(Stem(t.stringAttr))
    ensures t.nameAttr == Stem(t.nameAttr) + "\"" && t.stringAttr == Stem(t.stringAttr) + "\""
  {
  }

  lemma ParamNameRead(t: Tags, a: Arg)
    requires Vocabulary(t) && NameBytes(a.name)
    ensures ParseAttr(ParamTag(t, a), t.nameAttr) == Some(a.name)
  {
    hide ParseAttr, Vocabulary;
    var post := " " + t.stringAttr + Flag(t, a.isString) + "\"" + ">";
    assert ParamTag(t, a) == t.openParameter + " " + t.nameAttr + a.name + "\"" + post;
    assert OpenShape(t.openParameter) by { VocabularyFacts(t); }
    NameAttrRead(t, t.openParameter, a.name, post);
  }

  /** The flag the parser reads for a printed parameter. */
  ghost predicate FlagSeen(t: Tags, a: Arg) {
    a.isString && !EndsWith(a.name, Stem(t.stringAttr))
  }

  /** The parser inside the value that follows a parameter tag. */
  ghost function InValue(p: Parser, a: Arg, start: nat): Parser {
    p.(phase := ParamValue, parsePos := start, paramValueStart := start,
       paramName := Some(a.name), paramIsString := FlagSeen(p.tags, a))
  }

  /** A parameter tag is read with the printed name and flag. */
  lemma ParamTagStep(p: Parser, a: Arg, rest: string)
    requires At(p, ParamTag(p.tags, a) + rest) && NameBytes(a.name)
    ensures Step(p) == Go(InValue(p, a, |ParamTag(p.tags, a)|))
  {
    hide ParseAttr, OpenTagIs, Vocabulary, OpeningTag, EndsWith, Step;
    var tag := ParamTag(p.tags, a);
    ParamTagShape(p.tags, a);
    OpeningStep(p, tag, rest);
    ParamNameRead(p.tags, a);
    FlagRead(p.tags, a);
    assert p.raw[0..|tag|] == tag;
  }

  lemma ReadParamTag(p: Parser, a: Arg, rest: string) returns (q: Parser)
    requires At(p, ParamTag(p.tags, a) + rest) && NameBytes(a.name)
    ensures q == InValue(p, a, 0).(raw := rest) && q.Valid()
    ensures Rest(Parse(p)) == Rest(Parse(q))
  {
    hide Vocabulary, EndsWith, Step, Parse;
    var tag := ParamTag(p.tags, a);
    ParamTagStep(p, a, rest);
    assert p.raw[|tag|..] == rest;
    q := ReadStep(p);
  }

  /** The bytes that end a printed value. */
  function ClosedBy(t: Tags, rest: string): string {
    t.closeParameter + ">" + rest
  }

  lemma ExactClose(s: string, prefix: string, i: nat, rest: string)
    requires i <= |s| && s[i..] == prefix + ">" + rest
    ensures CloseTagEnd(s, i, prefix) == i + |prefix| + 1
  {
    var j := i + |prefix|;
    assert s[i..][..|prefix|] == s[i..j];
    assert s[j] == s[i..][|prefix|] == '>';
    SkipSpaceUnique(s, j, j);
    Mismatch(s, j, BAR, 0);
  }

  /** A printed value ends at its own close tag exactly when it spells none itself. */
  lemma ValueEnds(t: Tags, value: string, rest: string)
    requires Vocabulary(t)
    ensures var s := value + ClosedBy(t, rest);
            var at := FindCloseTag(s, 0, t.closeParameter);
            && at.Some? && at.value <= |value|
            && (at == Some(|value|) <==> CloseFree(t, value))
            && CloseTagEnd(s, |value|, t.closeParameter) == |value| + |t.closeParameter| + 1
  {
    hide CloseTagEnd;
    var tail := ClosedBy(t, rest);
    var s := value + tail;
    assert s[|value|..] == tail;
    ExactClose(s, t.closeParameter, |value|, rest);
    forall k | 0 <= k < |value|
      ensures CloseTagEnd(s, k, t.closeParameter) > 0 <==> CloseTagEnd(value, k, t.closeParameter) > 0
    {
      CloseTagExtend(value, tail, k, t.closeParameter);
      if CloseTagEnd(s, k, t.closeParameter) > |value| {
        assert s[|value|] == '<';
        CloseTagBytes(s, k, t.closeParameter);
      }
    }
  }

  /** Reading a value adds one argument and returns to structure. */
  lemma ReadValue(p: Parser, value: string, rest: string) returns (q: Parser)
    requires p.Valid() && Vocabulary(p.tags) && p.phase.ParamValue? && p.paramName.Some?
    requires p.parsePos == 0 && p.raw == value + ClosedBy(p.tags, rest) && CloseFree(p.tags, value)
    ensures q == p.(raw := rest, phase := Structural, paramName := None,
                    current := p.current.(args := p.current.args
                                                + [Arg(p.paramName.value, value, p.paramIsString)]))
    ensures At(q, rest)
    ensures Rest(Parse(p)) == Rest(Parse(q))
  {
    hide Vocabulary, FindCloseTag, CloseTagEnd, CloseFree;
    ValueEnds(p.tags, value, rest);
    var e := |value| + |p.tags.closeParameter| + 1;
    assert p.raw[0..|value|] == value && p.raw[e..] == rest;
    q := ReadStep(p);
  }

  /** One printed argument. */
  lemma ReadArg(p: Parser, a: Arg, rest: string) returns (q: Parser)
    requires At(p, PrintArg(p.tags, a) + rest) && Printable(p.tags, a)
    ensures At(q, rest)
    ensures q.tags == p.tags && q.calls == p.calls
    ensures q.current == p.current.(args := p.current.args + [a])
    ensures Rest(Parse(p)) == Rest(Parse(q))
  {
    hide Vocabulary, CloseFree, Parse;
    var t := p.tags;
    assert PrintArg(t, a) + rest == ParamTag(t, a) + (a.value + ClosedBy(t, "\n" + rest));
    var p1 := ReadParamTag(p, a, a.value + ClosedBy(t, "\n" + rest));
    var p2 := ReadValue(p1, a.value, "\n" + rest);
    q := ReadNewline(p2, rest);
  }

  /** Spaces and line breaks between tags are skipped. */
  lemma ReadSpaces(p: Parser, gap: string, rest: string) returns (q: Parser)
    requires At(p, gap + rest) && Spaces(gap)
    ensures q == p.(raw := rest) && At(q, rest)
    ensures Rest(Parse(p)) == Rest(Parse(q))
  {
    hide TagStep, Vocabulary;
    var p' := p.(parsePos := |gap|);
    q := p.(raw := rest);
    assert p.raw[|gap|..] == rest;
    SkipOver(gap, rest);
    assert SkipSpaces(p) == SkipSpaces(p');
    ParseRest(p');
    assert Rest(p') == q;
  }

  lemma {:induction false} SkipOver(gap: string, rest: string)
    requires Spaces(gap)
    ensures SkipSpace(gap + rest, 0) == SkipSpace(gap + rest, |gap|)
  {
    var s := gap + rest;
    var r := SkipSpace(s, |gap|);
    forall k | 0 <= k < r ensures IsSpace(s[k]) {
      assert k < |gap| ==> s[k] == gap[k];
    }
    SkipSpaceUnique(s, 0, r);
  }

  lemma ReadNewline(p: Parser, rest: string) returns (q: Parser)
    requires At(p, "\n" + rest)
    ensures q == p.(raw := rest) && At(q, rest)
    ensures Rest(Parse(p)) == Rest(Parse(q))
  {
    q := ReadSpaces(p, "\n", rest);
  }

  lemma {:induction false} ReadArgs(p: Parser, args: seq<Arg>, rest: string) returns (q: Parser)
    requires At(p, PrintArgs(p.tags, args) + rest)
    requires forall k :: 0 <= k < |args| ==> Printable(p.tags, args[k])
    ensures At(q, rest)
    ensures q.tags == p.tags && q.calls == p.calls
    ensures q.current == p.current.(args := p.current.args + args)
    ensures Rest(Parse(p)) == Rest(Parse(q))
    decreases |args|
  {
    hide Vocabulary, Printable, Parse, PrintArg;
    if args == [] {
      assert PrintArgs(p.tags, args) + rest == rest;
      q := p;
    } else {
      var more := PrintArgs(p.tags, args[1..]) + rest;
      assert PrintArgs(p.tags, args) + rest == PrintArg(p.tags, args[0]) + more;
      var p1 := ReadArg(p, args[0], more);
      q := ReadArgs(p1, args[1..], rest);
      assert args == [args[0]] + args[1..];
    }
  }

  /** A printed close tag is read as that close tag and no other. */
  lemma ReadCloseInvoke(p: Parser, rest: string) returns (q: Parser)
    requires At(p, p.tags.closeInvoke + ">" + rest) && p.current.name.Some?
    ensures q == p.(raw := rest, calls := p.calls + [p.current], current := NO_CALL)
    ensures At(q, rest)
    ensures Rest(Parse(p)) == Rest(Parse(q))
  {
    hide CloseTagEnd;
    var t := p.tags;
    var s := t.closeInvoke + ">" + rest;
    assert s[0] == '<' && s[0..] == s && s[0..0 + |t.closeInvoke|] == t.closeInvoke;
    SkipSpaceUnique(s, 0, 0);
    DifferNotBoth(s, t.closeInvoke, t.closeToolCalls);
    assert CloseTagEnd(s, 0, t.closeToolCalls) == 0 by { NotHere(s, t.closeToolCalls); }
    ExactClose(s, t.closeInvoke, 0, rest);
    assert p.raw[|t.closeInvoke| + 1..] == rest;
    q := ReadStep(p);
  }

  lemma NotHere(s: string, prefix: string)
    requires !OccursAt(s, 0, prefix)
    ensures CloseTagEnd(s, 0, prefix) == 0
  {
  }

  lemma ReadCloseAll(p: Parser, rest: string)
    requires At(p, p.tags.closeToolCalls + ">" + rest) && p.current.name.None?
    ensures Parse(p).phase.Done? && Parse(p).calls == p.calls && Rest(Parse(p)).raw == rest
  {
    hide CloseTagEnd;
    var s := p.tags.closeToolCalls + ">" + rest;
    assert s[0] == '<' && s[0..] == s && s[|p.tags.closeToolCalls| + 1..] == rest;
    SkipSpaceUnique(s, 0, 0);
    ExactClose(s, p.tags.closeToolCalls, 0, rest);
  }

  lemma ReadCall(p: Parser, c: Call, rest: string) returns (q: Parser)
    requires PrintableCall(p.tags, c)
    requires At(p, PrintCall(p.tags, c) + rest)
    ensures At(q, rest) && q.current == NO_CALL
    ensures q.tags == p.tags && q.calls == p.calls + [c]
    ensures Rest(Parse(p)) == Rest(Parse(q))
  {
    hide Vocabulary, Printable, Parse, PrintArgs, InvokeTag, CloseTagEnd;
    var t, name := p.tags, c.name.value;
    var tail := t.closeInvoke + ">" + ("\n" + rest);
    assert PrintCall(t, c) + rest
        == InvokeTag(t, name) + ("\n" + (PrintArgs(t, c.args) + tail));
    var p1 := ReadInvoke(p, name, "\n" + (PrintArgs(t, c.args) + tail));
    var p2 := ReadNewline(p1, PrintArgs(t, c.args) + tail);
    var p3 := ReadArgs(p2, c.args, tail);
    assert p3.current == c;
    var p4 := ReadCloseInvoke(p3, "\n" + rest);
    q := ReadNewline(p4, rest);
  }

  lemma {:induction false} ReadCalls(p: Parser, calls: seq<Call>, after: string)
    requires forall k :: 0 <= k < |calls| ==> PrintableCall(p.tags, calls[k])
    requires At(p, PrintCalls(p.tags, calls) + after) && p.current == NO_CALL
    ensures Parse(p).phase.Done? && Parse(p).calls == p.calls + calls && Rest(Parse(p)).raw == after
    decreases |calls|
  {
    hide Vocabulary, Printable, Parse, PrintCall;
    if calls == [] {
      assert PrintCalls(p.tags, calls) == p.tags.closeToolCalls + ">";
      ReadCloseAll(p, after);
    } else {
      var more := PrintCalls(p.tags, calls[1..]) + after;
      assert PrintCalls(p.tags, calls) + after == PrintCall(p.tags, calls[0]) + more;
      var p1 := ReadCall(p, calls[0], more);
      ReadCalls(p1, calls[1..], after);
      assert calls == [calls[0]] + calls[1..];
      assert Rest(Parse(p)).calls == Rest(Parse(p1)).calls;
    }
  }

  /** The stanza as the model writes it: spaces, usually a line break, and the calls. */
  function Body(t: Tags, gap: string, calls: seq<Call>): string {
    gap + PrintCalls(t, calls)
  }

  /**
   The round trip: a printed stanza, whatever follows it and however it is cut into feed
   calls, ends in DONE with exactly the printed calls in order.
   */
  lemma RoundTrip(t: Tags, gap: string, calls: seq<Call>, after: string, chunks: seq<string>)
    requires Vocabulary(t) && Spaces(gap)
    requires forall k :: 0 <= k < |calls| ==> PrintableCall(t, calls[k])
    requires Concat(chunks) == t.start + (Body(t, gap, calls) + after)
    ensures FeedCalls(Fresh(t), chunks).phase.Done?
    ensures FeedCalls(Fresh(t), chunks).calls == calls
  {
    hide Printable, Body, Feed, FeedCalls, Vocabulary, PrintableCall;
    assert t.Shape() by { VocabularyFacts(t); }
    ChunkingIrrelevant(Fresh(t), chunks);
    TextParses(t, gap, calls, after);
  }

  lemma TextParses(t: Tags, gap: string, calls: seq<Call>, after: string)
    requires Vocabulary(t) && Spaces(gap)
    requires forall k :: 0 <= k < |calls| ==> PrintableCall(t, calls[k])
    ensures var r := Feed(Fresh(t), t.start + (Body(t, gap, calls) + after));
            r.phase.Done? && r.calls == calls
  {
    hide Printable, Body, Parse, Feed, Vocabulary, Find;
    assert t.Shape() by { VocabularyFacts(t); }
    var body := Body(t, gap, calls) + after;
    var text := t.start + body;
    assert text[0..0 + |t.start|] == t.start && text[|t.start|..] == body;
    FindUnique(text, t.start, 0, 0);
    FeedFromMarker(t, text, 0);
    StanzaParses(t, gap, calls, after);
  }

  lemma StanzaParses(t: Tags, gap: string, calls: seq<Call>, after: string)
    requires Vocabulary(t) && Spaces(gap)
    requires forall k :: 0 <= k < |calls| ==> PrintableCall(t, calls[k])
    ensures var r := Parse(Started(t).Append(Body(t, gap, calls) + after));
            r.phase.Done? && r.calls == calls && r.parsePos == |r.raw| - |after|
  {
    hide Printable, PrintCalls, Parse, Vocabulary;
    assert t.Shape() by { VocabularyFacts(t); }
    var text := PrintCalls(t, calls) + after;
    assert Body(t, gap, calls) + after == gap + text;
    var p := Started(t).Append(gap + text);
    var p0 := Rest(p);
    assert p.raw[|t.start|..] == gap + text;
    ParseRest(p);
    var p1 := ReadSpaces(p0, gap, text);
    ReadCalls(p1, calls, after);
    assert Rest(Parse(p)).calls == Rest(Parse(p1)).calls;
    assert Rest(Parse(p)).phase == Rest(Parse(p1)).phase;
    assert Rest(Parse(p)).raw == after;
  }

  /** Where the parser ends the value it is inside of. */
  ghost function ValueRead(t: Tags, value: string, rest: string): (r: string)
    requires Vocabulary(t)
    ensures r == value <==> CloseFree(t, value)
  {
    ValueEnds(t, value, rest);
    value[..FindCloseTag(value + ClosedBy(t, rest), 0, t.closeParameter).value]
  }

  lemma ValueStep(q: Parser, value: string, rest: string)
    requires q.Valid() && Vocabulary(q.tags) && q.phase.ParamValue? && q.paramName.Some?
    requires q.raw[q.parsePos..] == value + ClosedBy(q.tags, rest)
    ensures Step(q).Go?
    ensures Step(q).p.current.args == q.current.args
              + [Arg(q.paramName.value, ValueRead(q.tags, value, rest), q.paramIsString)]
  {
    hide Vocabulary, CloseFree, FindCloseTag, CloseTagEnd;
    var text := value + ClosedBy(q.tags, rest);
    ValueEnds(q.tags, value, rest);
    assert q.raw == q.raw[..q.parsePos] + text;
    FindCloseTagShift(q.raw[..q.parsePos], text, 0, q.tags.closeParameter);
    var at := FindCloseTag(text, 0, q.tags.closeParameter).value;
    assert q.raw[q.parsePos..q.parsePos + at] == value[..at];
  }

  /**
   The side condition is exact: a parameter with a legal name is read back unchanged if
   and only if it is printable.
   */
  lemma ReadBackIff(p: Parser, a: Arg, rest: string)
    requires At(p, PrintArg(p.tags, a) + rest) && NameBytes(a.name)
    ensures Step(p).Go? && Step(p).p.phase.ParamValue? && Step(Step(p).p).Go?
    ensures Step(Step(p).p).p.current.args == p.current.args + [a] <==> Printable(p.tags, a)
  {
    hide Vocabulary, CloseFree, EndsWith, Step, ValueRead, NameBytes;
    var t := p.tags;
    var after := "\n" + rest;
    var more := a.value + ClosedBy(t, after);
    var tag := ParamTag(t, a);
    assert PrintArg(t, a) + rest == tag + more;
    ParamTagStep(p, a, more);
    assert p.raw[|tag|..] == more;
    ValueStep(Step(p).p, a.value, after);
    var read := Arg(a.name, ValueRead(t, a.value, after), FlagSeen(t, a));
    LastArg(p.current.args, read, a);
  }

  lemma LastArg(args: seq<Arg>, a: Arg, b: Arg)
    ensures args + [a] == args + [b] <==> a == b
  {
    assert (args + [a])[|args|] == a && (args + [b])[|args|] == b;
  }
}
