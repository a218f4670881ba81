/**
 What a DSML stanza is, as text: spaces and tags, each tag up to its first '>', and values
 up to their first close tag.  The parser is done, or fails, exactly when the text begins
 with a stanza that ends that way, and its calls are the calls the stanza spells.
 */
module DsmlGrammar {
  import opened Strings
  import opened ToolCalls
  import opened ToolParser

  // ------------------------------------------------------------------------------------
  // Tags
  // ------------------------------------------------------------------------------------

  /** A complete close tag: spaces and one more bar are tolerated before the '>'. */
  ghost predicate CloseTag(tag: string, prefix: string) {
    exists a, b :: Spaces(a) && Spaces(b)
      && (tag == prefix + (a + (b + ">")) || tag == prefix + (a + (BAR + (b + ">"))))
  }

  /** Bytes up to the first '>', not beginning with a space. */
  ghost predicate OneTag(tag: string) {
    && tag != "" && !IsSpace(tag[0]) && tag[|tag| - 1] == '>'
    && forall k :: 0 <= k < |tag| - 1 ==> tag[k] != '>'
  }

  /** The tag begins with this opener, which ends there. */
  ghost predicate Named(tag: string, opener: string) {
    exists rest :: tag == opener + rest && rest != "" && (rest[0] == '>' || IsSpace(rest[0]))
  }

  /** The value between the first spelling of the pattern and the next quote. */
  ghost predicate AttrIs(tag: string, pattern: string, value: string) {
    exists n: nat ::
      && OccursAt(tag, n, pattern) && (forall k :: 0 <= k < n ==> !OccursAt(tag, k, pattern))
      && OccursAt(tag, n + |pattern|, value + "\"") && (forall k :: 0 <= k < |value| ==> value[k] != '"')
  }

  ghost predicate NoAttr(tag: string, pattern: string) {
    forall value :: !AttrIs(tag, pattern, value)
  }

  /** A value and the first close tag behind its beginning. */
  ghost predicate ClosedValue(value: string, close: string, prefix: string) {
    && CloseTag(close, prefix)
    && forall i, j :: 0 <= i < |value| && i <= j <= |value + close| ==> !CloseTag((value + close)[i..j], prefix)
  }

  ghost predicate EndsStanza(t: Tags, tag: string) {
    CloseTag(tag, t.closeToolCalls)
  }

  ghost predicate EndsCall(t: Tags, tag: string) {
    CloseTag(tag, t.closeInvoke) && !EndsStanza(t, tag)
  }

  /** Neither of the two close tags. */
  ghost predicate Opening(t: Tags, tag: string) {
    OneTag(tag) && !CloseTag(tag, t.closeToolCalls) && !CloseTag(tag, t.closeInvoke)
  }

  ghost predicate OpensCall(t: Tags, tag: string) {
    Opening(t, tag) && Named(tag, t.openInvoke)
  }

  ghost predicate OpensParam(t: Tags, tag: string) {
    Opening(t, tag) && Named(tag, t.openParameter) && !Named(tag, t.openInvoke)
  }

  // ------------------------------------------------------------------------------------
  // Stanzas
  // ------------------------------------------------------------------------------------

  datatype Item =
    | Open(gap: string, tag: string, name: string)
    | Param(gap: string, tag: string, arg: Arg, close: string)
    | Close(gap: string, tag: string)
    | End(gap: string, tag: string)
    | Bad(gap: string, tag: string, why: Reason)
  {
    function Text(): string {
      if Param? then gap + tag + (arg.value + close) else gap + tag
    }

    /** The stanza is over. */
    predicate Last() {
      End? || Bad?
    }

    ghost predicate Is(t: Tags) {
      && Spaces(gap)
      && match this
         case Open(_, tag, name) => OpensCall(t, tag) && AttrIs(tag, t.nameAttr, name)
         case Param(_, tag, arg, close) =>
           && OpensParam(t, tag) && AttrIs(tag, t.nameAttr, arg.name)
           && (arg.isString <==> AttrIs(tag, t.stringAttr, t.trueValue))
           && ClosedValue(arg.value, close, t.closeParameter)
         case Close(_, tag) => EndsCall(t, tag)
         case End(_, tag) => EndsStanza(t, tag)
         case Bad(_, tag, why) => Outside(t, tag, why)
    }
  }

  /** A complete tag that has no place in a stanza, and why. */
  ghost predicate Outside(t: Tags, tag: string, why: Reason) {
    match why
    case InvokeWithoutName => OpensCall(t, tag) && NoAttr(tag, t.nameAttr)
    case ParameterWithoutName => OpensParam(t, tag) && NoAttr(tag, t.nameAttr)
    case UnexpectedTag(shown) =>
      && Opening(t, tag) && !Named(tag, t.openInvoke) && !Named(tag, t.openParameter)
      && shown == tag[..if |tag| > 80 then 80 else |tag|]
    case _ => false
  }

  function Spelled(items: seq<Item>): string {
    if items == [] then "" else items[0].Text() + Spelled(items[1..])
  }

  ghost predicate Stanza(t: Tags, items: seq<Item>) {
    && items != [] && items[|items| - 1].Last()
    && (forall k :: 0 <= k < |items| ==> items[k].Is(t))
    && (forall k :: 0 <= k < |items| - 1 ==> !items[k].Last())
  }

  /** The call that is open behind an item; parameters outside a call are lost. */
  function OpenBehind(item: Item, open: Option<Call>): Option<Call> {
    match item
    case Open(_, _, name) => Some(Call(Some(name), []))
    case Param(_, _, arg, _) =>
      if open.Some? then Some(open.value.(args := open.value.args + [arg])) else None
    case Close(_, _) => None
    case End(_, _) => None
    case Bad(_, _, _) => None
  }

  /** The call that an item completes. */
  function Completed(item: Item, open: Option<Call>): seq<Call> {
    if (item.Close? || item.End?) && open.Some? then [open.value] else []
  }

  /** The calls of a stanza: each from its opening tag to a close tag, a reopened one forgotten. */
  function CallsOf(items: seq<Item>, open: Option<Call>): seq<Call> {
    if items == [] then []
    else Completed(items[0], open) + CallsOf(items[1..], OpenBehind(items[0], open))
  }

  /** `s` begins with a complete stanza of these calls, and goes on with `rest`. */
  ghost predicate Accepts(t: Tags, s: string, calls: seq<Call>, rest: string) {
    exists items: seq<Item> :: Stanza(t, items) && items[|items| - 1].End? && s == Spelled(items) + rest
                 && calls == CallsOf(items, None)
  }

  /** The first tag of `s` that has no place in a stanza is complete. */
  ghost predicate Rejects(t: Tags, s: string, why: Reason) {
    exists items: seq<Item>, rest :: Stanza(t, items) && items[|items| - 1].Bad? && s == Spelled(items) + rest
                       && items[|items| - 1].why == why
  }

  // ------------------------------------------------------------------------------------
  // Tags, read
  // ------------------------------------------------------------------------------------

  lemma Join(s: string, i: nat, j: nat, k: nat)
    requires i <= j <= k <= |s|
    ensures s[i..k] == s[i..j] + s[j..k]
  {
  }

  lemma SpacesIn(s: string, i: nat, j: nat)
    requires i <= j <= |s| && forall k :: i <= k < j ==> IsSpace(s[k])
    ensures Spaces(s[i..j])
  {
  }

  /** The end of a close tag behind its name. */
  lemma TailPieces(s: string, a: nat, b: nat, c: nat)
    requires a <= b <= c < |s| && s[c] == '>' && (b == a || s[a..b] == BAR)
    ensures s[a..c + 1] == (if b == a then "" else BAR) + (s[b..c] + ">")
  {
    assert s[c..c + 1] == ">";
    Join(s, b, c, c + 1);
    Join(s, a, b, c + 1);
  }

  lemma Pieces(s: string, i: nat, n: nat, a: nat, b: nat, c: nat)
    requires i <= n <= a <= b <= c < |s| && Spaces(s[n..a]) && Spaces(s[b..c]) && s[c] == '>'
    requires b == a || s[a..b] == BAR
    ensures CloseTag(s[i..c + 1], s[i..n])
  {
    TailPieces(s, a, b, c);
    Join(s, n, a, c + 1);
    Join(s, i, n, c + 1);
    CloseTagOf(s[i..c + 1], s[i..n], s[n..a], s[b..c], s[a..c + 1], b > a);
  }

  lemma CloseTagOf(tag: string, prefix: string, a: string, b: string, end: string, bar: bool)
    requires Spaces(a) && Spaces(b) && end == (if bar then BAR else "") + (b + ">") && tag == prefix + (a + end)
    ensures CloseTag(tag, prefix)
  {
    hide Spaces;
    assert "" + (b + ">") == b + ">";
  }

  lemma CloseTagFound(s: string, i: nat, prefix: string)
    requires CloseTagEnd(s, i, prefix) > 0
    ensures CloseTag(s[i..CloseTagEnd(s, i, prefix)], prefix)
  {
    hide IsSpace, Spaces, CloseTag;
    var n := i + |prefix|;
    var a := SkipSpace(s, n);
    var b := SkipBar(s, a);
    var c := SkipSpace(s, b);
    assert c + 1 == CloseTagEnd(s, i, prefix) && s[i..n] == prefix && s[c] == '>';
    SpacesIn(s, n, a);
    SpacesIn(s, b, c);
    assert b == a || s[a..b] == BAR;
    hide SkipSpace, SkipBar, CloseTagEnd;
    Pieces(s, i, n, a, b, c);
  }

  /** Spaces end at the first byte that is none. */
  lemma SpacesEnd(s: string, i: nat, a: string)
    requires i + |a| < |s| && s[i..i + |a|] == a && Spaces(a) && !IsSpace(s[i + |a|])
    ensures SkipSpace(s, i) == i + |a|
  {
    forall k | i <= k < i + |a| ensures IsSpace(s[k]) {
      assert s[k] == s[i..i + |a|][k - i];
    }
    SkipSpaceUnique(s, i, i + |a|);
  }

  lemma PlainTail(s: string, i: nat, a: string)
    requires Spaces(a) && OccursAt(s, i, a + ">")
    ensures CloseTailEnd(s, i) == i + |a| + 1
  {
    var n := i + |a|;
    HeadAt(s, i, a, ">");
    assert s[n..n + 1][0] == s[n];
    SpacesEnd(s, i, a);
    Mismatch(s, n, BAR, 0);
    SkipSpaceUnique(s, n, n);
  }

  lemma BarTail(s: string, i: nat, a: string, b: string)
    requires Spaces(a) && Spaces(b) && OccursAt(s, i, a + (BAR + (b + ">")))
    ensures CloseTailEnd(s, i) == i + |a| + |BAR| + |b| + 1
  {
    hide Spaces;
    var n := i + |a|;
    var m := n + |BAR|;
    HeadAt(s, i, a, BAR + (b + ">"));
    HeadAt(s, n, BAR, b + ">");
    HeadAt(s, m, b, ">");
    assert s[n..m][0] == s[n] && s[m + |b|..m + |b| + 1][0] == s[m + |b|];
    SpacesEnd(s, i, a);
    SpacesEnd(s, m, b);
  }

  /** A close tag is one by its own bytes. */
  lemma CloseTagHere(s: string, i: nat, e: nat, prefix: string)
    requires i <= e <= |s| && CloseTag(s[i..e], prefix)
    ensures CloseTagEnd(s, i, prefix) == e > 0
  {
    hide CloseTailEnd;
    var tag := s[i..e];
    var a, b :| Spaces(a) && Spaces(b)
      && (tag == prefix + (a + (b + ">")) || tag == prefix + (a + (BAR + (b + ">"))));
    var n := i + |prefix|;
    assert s[i..n] == tag[..|prefix|];
    if tag == prefix + (a + (b + ">")) {
      assert a + (b + ">") == (a + b) + ">";
      assert s[n..e] == (a + b) + ">";
      PlainTail(s, n, a + b);
    } else {
      assert s[n..e] == a + (BAR + (b + ">"));
      BarTail(s, n, a, b);
    }
  }

  /** A close tag in front of the first '>' ends there. */
  lemma CloseTagIff(s: string, i: nat, e: nat, prefix: string)
    requires ClosePrefixShape(prefix) && i < e <= |s| && OneTag(s[i..e])
    ensures CloseTagEnd(s, i, prefix) == if CloseTag(s[i..e], prefix) then e else 0
  {
    hide CloseTagEnd, CloseTag;
    var end := CloseTagEnd(s, i, prefix);
    if end > 0 {
      CloseTagBytes(s, i, prefix);
      assert forall k :: i <= k < e - 1 ==> s[k] == s[i..e][k - i];
      assert s[e - 1] == s[i..e][e - 1 - i];
      CloseTagFound(s, i, prefix);
    } else if CloseTag(s[i..e], prefix) {
      CloseTagHere(s, i, e, prefix);
    }
  }

  lemma CloseTagIsOne(tag: string, prefix: string)
    requires ClosePrefixShape(prefix) && CloseTag(tag, prefix)
    ensures OneTag(tag) && |tag| > 1
  {
    assert tag[0..|tag|] == tag;
    CloseTagHere(tag, 0, |tag|, prefix);
    CloseTagBytes(tag, 0, prefix);
  }

  lemma NamedIff(tag: string, opener: string)
    ensures Named(tag, opener) <==> OpenTagIs(tag, opener)
  {
    if Named(tag, opener) {
      var rest :| tag == opener + rest && rest != "" && (rest[0] == '>' || IsSpace(rest[0]));
      assert tag[0..|opener|] == opener && tag[|opener|] == rest[0];
    }
    if OpenTagIs(tag, opener) {
      assert tag == opener + tag[|opener|..];
    }
  }

  lemma AttrFound(tag: string, pattern: string)
    requires ParseAttr(tag, pattern).Some?
    ensures AttrIs(tag, pattern, ParseAttr(tag, pattern).value)
  {
    var n := Find(tag, pattern, 0).value;
    var from := n + |pattern|;
    var end := FindChar(tag, '"', from).value;
    assert tag[from..end + 1] == tag[from..end] + "\"";
  }

  lemma HeadAt(s: string, i: nat, a: string, b: string)
    requires OccursAt(s, i, a + b)
    ensures i + |a| + |b| <= |s| && s[i..i + |a|] == a && s[i + |a|..i + |a| + |b|] == b
  {
    var x := s[i..i + |a + b|];
    assert s[i..i + |a|] == x[..|a|] && s[i + |a|..i + |a| + |b|] == x[|a|..];
  }

  lemma QuoteBehind(tag: string, i: nat, value: string)
    requires OccursAt(tag, i, value + "\"") && forall k :: 0 <= k < |value| ==> value[k] != '"'
    ensures FindChar(tag, '"', i) == Some(i + |value|) && i + |value| <= |tag| && tag[i..i + |value|] == value
  {
    HeadAt(tag, i, value, "\"");
    var end := i + |value|;
    assert tag[end] == tag[end..end + 1][0];
    forall k | i <= k < end ensures tag[k] != '"' {
      assert tag[k] == tag[i..end][k - i];
    }
    FindCharUnique(tag, '"', i, end);
  }

  lemma AttrHere(tag: string, pattern: string, value: string)
    requires AttrIs(tag, pattern, value)
    ensures ParseAttr(tag, pattern) == Some(value)
  {
    hide OccursAt, FindChar, Find;
    var n: nat :| OccursAt(tag, n, pattern) && (forall k :: 0 <= k < n ==> !OccursAt(tag, k, pattern))
      && OccursAt(tag, n + |pattern|, value + "\"") && (forall k :: 0 <= k < |value| ==> value[k] != '"');
    FindUnique(tag, pattern, 0, n);
    QuoteBehind(tag, n + |pattern|, value);
  }

  /** An attribute is read exactly when it is there. */
  lemma AttrIff(tag: string, pattern: string, value: string)
    ensures ParseAttr(tag, pattern) == Some(value) <==> AttrIs(tag, pattern, value)
    ensures ParseAttr(tag, pattern).None? <==> NoAttr(tag, pattern)
  {
    hide ParseAttr, AttrIs;
    if ParseAttr(tag, pattern).Some? {
      AttrFound(tag, pattern);
    }
    forall w | AttrIs(tag, pattern, w) ensures ParseAttr(tag, pattern) == Some(w) {
      AttrHere(tag, pattern, w);
    }
  }

  // ---- values --------------------------------------------------------------------------

  lemma ValueFound(s: string, i: nat, prefix: string)
    requires ClosePrefixShape(prefix) && i <= |s| && FindCloseTag(s, i, prefix).Some?
    ensures var at := FindCloseTag(s, i, prefix).value;
            ClosedValue(s[i..at], s[at..CloseTagEnd(s, at, prefix)], prefix)
  {
    hide CloseTagEnd, CloseTag;
    var at := FindCloseTag(s, i, prefix).value;
    var e := CloseTagEnd(s, at, prefix);
    CloseTagFound(s, at, prefix);
    var text := s[i..at] + s[at..e];
    assert text == s[i..e];
    forall k, j | 0 <= k < at - i && k <= j <= |text| ensures !CloseTag(text[k..j], prefix) {
      InnerSlice(s, i, e, i + k, i + j);
      if CloseTag(text[k..j], prefix) {
        CloseTagHere(s, i + k, i + j, prefix);
      }
    }
  }

  lemma InnerSlice(s: string, i: nat, e: nat, j: nat, k: nat)
    requires i <= j <= k <= e <= |s|
    ensures s[i..e][j - i..k - i] == s[j..k]
  {
    var a := s[i..e];
    forall m | 0 <= m < k - j ensures a[j - i..k - i][m] == s[j..k][m] {
      assert a[j - i + m] == s[j + m];
    }
  }

  lemma ValueHere(s: string, i: nat, value: string, close: string, prefix: string)
    requires ClosePrefixShape(prefix) && OccursAt(s, i, value + close) && ClosedValue(value, close, prefix)
    ensures FindCloseTag(s, i, prefix) == Some(i + |value|)
    ensures CloseTagEnd(s, i + |value|, prefix) == i + |value| + |close|
  {
    hide CloseTagEnd, CloseTag;
    var text := value + close;
    var at := i + |value|;
    var e := at + |close|;
    HeadAt(s, i, value, close);
    CloseTagHere(s, at, e, prefix);
    CloseTagBytes(s, at, prefix);
    forall k | i <= k < at ensures CloseTagEnd(s, k, prefix) == 0 {
      var end := CloseTagEnd(s, k, prefix);
      if end > 0 {
        CloseTagBytes(s, k, prefix);
        CloseTagFound(s, k, prefix);
        assert end <= e;
        InnerSlice(s, i, e, k, end);
      }
    }
    FindCloseTagUnique(s, i, prefix, at);
  }

  // ------------------------------------------------------------------------------------
  // One pass of the loop
  // ------------------------------------------------------------------------------------

  /** What a complete tag does. */
  ghost function TagDone(q: Parser, tag: string, e: nat): Parser
    requires q.Valid() && q.phase.Structural? && e <= |q.raw|
  {
    if EndsStanza(q.tags, tag) then Push(q).(parsePos := e, phase := Done)
    else if EndsCall(q.tags, tag) then Push(q).(parsePos := e)
    else Opened(q, tag, e)
  }

  lemma TagBytes(s: string, i: nat, gap: string, tag: string)
    requires Spaces(gap) && OneTag(tag) && OccursAt(s, i, gap + tag)
    ensures var n := i + |gap|;
            && n + |tag| <= |s| && s[n..n + |tag|] == tag
            && SkipSpace(s, i) == n && FindChar(s, '>', n) == Some(n + |tag| - 1)
  {
    var n, e := i + |gap|, i + |gap| + |tag|;
    forall k | i <= k < e ensures s[k] == (gap + tag)[k - i] {
      OccursByte(s, i, gap + tag, k - i);
    }
    SkipSpaceUnique(s, i, n);
    assert forall k :: n <= k < e ==> s[k] == tag[k - n];
    FindCharUnique(s, '>', n, e - 1);
  }

  /** A complete tag behind spaces is taken. */
  lemma TagPass(p: Parser, gap: string, tag: string)
    requires p.Valid() && p.phase.Structural? && Spaces(gap) && OneTag(tag) && OccursAt(p.raw, p.parsePos, gap + tag)
    ensures var n := p.parsePos + |gap|;
            Step(p) == Go(TagDone(p.(parsePos := n), tag, n + |tag|))
  {
    hide CloseTagEnd, CloseTag, Opened, OneTag, Push, ClosePrefixShape, OccursAt;
    TagBytes(p.raw, p.parsePos, gap, tag);
    var n, e := p.parsePos + |gap|, p.parsePos + |gap| + |tag|;
    var q := p.(parsePos := n);
    assert SkipSpaces(p) == q && |tag| > 0;
    CloseTagIff(q.raw, n, e, q.tags.closeToolCalls);
    CloseTagIff(q.raw, n, e, q.tags.closeInvoke);
  }

  /** A pass that takes anything takes a complete tag. */
  lemma PassTag(p: Parser) returns (gap: string, tag: string)
    requires p.Valid() && p.phase.Structural? && Step(p).Go?
    ensures Spaces(gap) && OneTag(tag) && OccursAt(p.raw, p.parsePos, gap + tag)
  {
    hide CloseTagEnd;
    var n := SkipSpace(p.raw, p.parsePos);
    var gt := FindChar(p.raw, '>', n);
    var a, b := CloseTagEnd(p.raw, n, p.tags.closeToolCalls), CloseTagEnd(p.raw, n, p.tags.closeInvoke);
    assert a > 0 || b > 0 || gt.Some?;
    if a > 0 {
      CloseTagBytes(p.raw, n, p.tags.closeToolCalls);
    } else if b > 0 {
      CloseTagBytes(p.raw, n, p.tags.closeInvoke);
    }
    gap, tag := p.raw[p.parsePos..n], p.raw[n..gt.value + 1];
    assert p.raw[p.parsePos..gt.value + 1] == gap + tag;
  }

  // ------------------------------------------------------------------------------------
  // One item
  // ------------------------------------------------------------------------------------

  /** The call that the parser is in. */
  function InCall(p: Parser): Option<Call> {
    if p.current.name.Some? then Some(p.current) else None
  }

  /** `q` is `p` behind an item. */
  ghost predicate Behind(q: Parser, p: Parser, item: Item) {
    && q.Valid() && q.raw == p.raw && q.tags == p.tags && q.parsePos == p.parsePos + |item.Text()|
    && q.phase == (if item.End? then Done else Structural)
    && q.calls == p.calls + Completed(item, InCall(p)) && InCall(q) == OpenBehind(item, InCall(p))
  }

  lemma ItemTag(t: Tags, item: Item)
    requires t.Shape() && item.Is(t)
    ensures OneTag(item.tag)
  {
    hide CloseTag, ClosePrefixShape, NoAttr, AttrIs, ClosedValue, Named;
    if item.Close? {
      CloseTagIsOne(item.tag, t.closeInvoke);
    } else if item.End? {
      CloseTagIsOne(item.tag, t.closeToolCalls);
    }
  }

  /** An item's spaces and tag are at the beginning of its text. */
  lemma TagAtHead(s: string, i: nat, item: Item)
    requires OccursAt(s, i, item.Text())
    ensures OccursAt(s, i, item.gap + item.tag)
    ensures item.Param? ==> OccursAt(s, i + |item.gap + item.tag|, item.arg.value + item.close)
  {
    var x, n := item.Text(), |item.gap + item.tag|;
    assert s[i..i + n] == s[i..i + |x|][..n];
    assert s[i + n..i + |x|] == s[i..i + |x|][n..];
  }

  lemma OpenedCall(q: Parser, tag: string, e: nat, name: string)
    requires q.Valid() && q.phase.Structural? && e <= |q.raw| && OpensCall(q.tags, tag)
    ensures AttrIs(tag, q.tags.nameAttr, name) ==>
              TagDone(q, tag, e) == q.(current := Call(Some(name), []), parsePos := e)
    ensures NoAttr(tag, q.tags.nameAttr) ==> TagDone(q, tag, e) == q.(current := NO_CALL).Fail(InvokeWithoutName)
  {
    hide CloseTag, Named, OpenTagIs, ParseAttr, AttrIs, NoAttr, OneTag;
    NamedIff(tag, q.tags.openInvoke);
    AttrIff(tag, q.tags.nameAttr, name);
  }

  lemma OpenedParam(q: Parser, tag: string, e: nat, name: string)
    requires q.Valid() && q.phase.Structural? && e <= |q.raw| && OpensParam(q.tags, tag)
    ensures AttrIs(tag, q.tags.nameAttr, name) ==>
              TagDone(q, tag, e) ==
              q.(paramName := Some(name), paramIsString := AttrIs(tag, q.tags.stringAttr, q.tags.trueValue),
                 parsePos := e, paramValueStart := e, phase := ParamValue)
    ensures NoAttr(tag, q.tags.nameAttr) ==>
              TagDone(q, tag, e).phase.Error? && TagDone(q, tag, e).error == ParameterWithoutName
              && TagDone(q, tag, e).calls == q.calls
  {
    hide CloseTag, Named, OpenTagIs, ParseAttr, AttrIs, NoAttr, OneTag;
    NamedIff(tag, q.tags.openInvoke);
    NamedIff(tag, q.tags.openParameter);
    AttrIff(tag, q.tags.nameAttr, name);
    AttrIff(tag, q.tags.stringAttr, q.tags.trueValue);
  }

  lemma OpenedOther(q: Parser, tag: string, e: nat)
    requires q.Valid() && q.phase.Structural? && e <= |q.raw| && Opening(q.tags, tag)
    requires !Named(tag, q.tags.openInvoke) && !Named(tag, q.tags.openParameter)
    ensures TagDone(q, tag, e) == q.Fail(UnexpectedTag(tag[..if |tag| > 80 then 80 else |tag|]))
  {
    hide CloseTag, Named, OpenTagIs, ParseAttr, OneTag;
    NamedIff(tag, q.tags.openInvoke);
    NamedIff(tag, q.tags.openParameter);
    assert |tag| <= 80 ==> tag[..|tag|] == tag;
  }

  /** A value up to its close tag is taken. */
  lemma ValuePassed(q: Parser, value: string, close: string)
    requires q.Valid() && q.phase.ParamValue? && q.paramName.Some?
    requires OccursAt(q.raw, q.parsePos, value + close) && ClosedValue(value, close, q.tags.closeParameter)
    ensures Step(q) == Go(q.(phase := Structural, paramName := None,
                             current := q.current.(args := q.current.args + [Arg(q.paramName.value, value, q.paramIsString)]),
                             parsePos := q.parsePos + |value + close|))
  {
    hide CloseTagEnd, CloseTag, FindCloseTag, ClosedValue;
    ValueHere(q.raw, q.parsePos, value, close, q.tags.closeParameter);
    HeadAt(q.raw, q.parsePos, value, close);
  }

  /** Reading an item that is there, a rejected tag aside. */
  lemma ReadItem(p: Parser, item: Item) returns (q: Parser)
    requires p.Valid() && p.phase.Structural? && item.Is(p.tags) && !item.Bad?
    requires OccursAt(p.raw, p.parsePos, item.Text())
    ensures Behind(q, p, item) && Parse(p) == Parse(q)
  {
    hide CloseTag, Opened, Opening, OneTag, AttrIs, Step, ClosedValue, Named, Tags.Shape;
    ItemTag(p.tags, item);
    TagAtHead(p.raw, p.parsePos, item);
    TagPass(p, item.gap, item.tag);
    q := Step(p).p;
    var n := p.parsePos + |item.gap|;
    var p1, e := p.(parsePos := n), n + |item.tag|;
    match item
    case Open(gap, tag, name) =>
      OpenedCall(p1, tag, e, name);
    case Param(gap, tag, arg, close) =>
      OpenedParam(p1, tag, e, arg.name);
      ValuePassed(q, arg.value, close);
      q := Step(q).p;
    case Close(_, _) =>
    case End(_, _) =>
  }

  /** A rejected tag that is there ends the parse. */
  lemma ReadBad(p: Parser, item: Item)
    requires p.Valid() && p.phase.Structural? && item.Is(p.tags) && item.Bad?
    requires OccursAt(p.raw, p.parsePos, item.Text())
    ensures Parse(p).phase.Error? && Parse(p).error == item.why && Parse(p).calls == p.calls
  {
    hide CloseTag, Opened, Opening, OneTag, AttrIs, NoAttr, Step, Named, TagDone, Tags.Shape;
    ItemTag(p.tags, item);
    TagAtHead(p.raw, p.parsePos, item);
    TagPass(p, item.gap, item.tag);
    var n := p.parsePos + |item.gap|;
    var p1, e := p.(parsePos := n), n + |item.tag|;
    match item.why
    case InvokeWithoutName => OpenedCall(p1, item.tag, e, "");
    case ParameterWithoutName => OpenedParam(p1, item.tag, e, "");
    case UnexpectedTag(_) => OpenedOther(p1, item.tag, e);
  }

  /** A parser that moves on has an item in front of it, unless it is in a value for good. */
  lemma NextItem(p: Parser) returns (item: Item)
    requires p.Valid() && p.phase.Structural? && !Parse(p).Live()
    ensures item.Is(p.tags) && OccursAt(p.raw, p.parsePos, item.Text())
  {
    hide CloseTag, Opened, OneTag, AttrIs, NoAttr, Step, Named, TagDone, Tags.Shape, ClosedValue, ParseAttr;
    var gap, tag := PassTag(p);
    TagPass(p, gap, tag);
    var n, t := p.parsePos + |gap|, p.tags;
    var p1, e := p.(parsePos := n), n + |tag|;
    AttrIff(tag, t.nameAttr, "");
    var name := if ParseAttr(tag, t.nameAttr).Some? then ParseAttr(tag, t.nameAttr).value else "";
    AttrIff(tag, t.nameAttr, name);
    if CloseTag(tag, t.closeToolCalls) {
      item := End(gap, tag);
    } else if CloseTag(tag, t.closeInvoke) {
      item := Close(gap, tag);
    } else if Named(tag, t.openInvoke) {
      item := if ParseAttr(tag, t.nameAttr).Some? then Open(gap, tag, name) else Bad(gap, tag, InvokeWithoutName);
    } else if !Named(tag, t.openParameter) {
      item := Bad(gap, tag, UnexpectedTag(tag[..if |tag| > 80 then 80 else |tag|]));
    } else if ParseAttr(tag, t.nameAttr).None? {
      item := Bad(gap, tag, ParameterWithoutName);
    } else {
      OpenedParam(p1, tag, e, name);
      item := ParamAhead(Step(p).p, gap, tag, name);
      OccursBoth(p.raw, p.parsePos, gap + tag, item.arg.value + item.close);
    }
  }

  lemma OccursBoth(s: string, i: nat, a: string, b: string)
    requires OccursAt(s, i, a) && OccursAt(s, i + |a|, b)
    ensures OccursAt(s, i, a + b)
  {
    assert s[i..i + |a + b|] == s[i..i + |a|] + s[i + |a|..i + |a| + |b|];
  }

  /** The rest of a parameter whose tag has been read. */
  lemma ParamAhead(q: Parser, gap: string, tag: string, name: string) returns (item: Item)
    requires q.Valid() && q.phase.ParamValue? && !Parse(q).Live() && Spaces(gap)
    requires OpensParam(q.tags, tag) && AttrIs(tag, q.tags.nameAttr, name)
    ensures item.Param? && item.gap == gap && item.tag == tag && item.Is(q.tags)
    ensures OccursAt(q.raw, q.parsePos, item.arg.value + item.close)
  {
    hide CloseTag, CloseTagEnd, FindCloseTag, OpensParam, AttrIs, ClosedValue;
    var prefix := q.tags.closeParameter;
    assert FindCloseTag(q.raw, q.parsePos, prefix).Some?;
    var at := FindCloseTag(q.raw, q.parsePos, prefix).value;
    ValueFound(q.raw, q.parsePos, prefix);
    var value, close := q.raw[q.parsePos..at], q.raw[at..CloseTagEnd(q.raw, at, prefix)];
    assert value + close == q.raw[q.parsePos..CloseTagEnd(q.raw, at, prefix)];
    item := Param(gap, tag, Arg(name, value, AttrIs(tag, q.tags.stringAttr, q.tags.trueValue)), close);
  }

  // ------------------------------------------------------------------------------------
  // Whole stanzas
  // ------------------------------------------------------------------------------------

  lemma StanzaTail(t: Tags, items: seq<Item>)
    requires Stanza(t, items) && !items[0].Last()
    ensures |items| > 1 && Stanza(t, items[1..]) && items[1..][|items| - 2] == items[|items| - 1]
  {
    assert items[1..][|items| - 2] == items[|items| - 1];
  }

  lemma HeadDrop(s: string, i: nat, x: string, z: string)
    requires i <= |s| && s[i..] == x + z
    ensures OccursAt(s, i, x) && s[i + |x|..] == z
  {
    assert s[i..i + |x|] == s[i..][..|x|];
    DropTwice(s, i, |x|);
  }

  lemma HeadText(s: string, i: nat, items: seq<Item>, rest: string)
    requires items != [] && i <= |s| && s[i..] == Spelled(items) + rest
    ensures OccursAt(s, i, items[0].Text())
    ensures i + |items[0].Text()| <= |s| && s[i + |items[0].Text()|..] == Spelled(items[1..]) + rest
  {
    hide Item.Text, OccursAt;
    Assoc(items[0].Text(), Spelled(items[1..]), rest);
    HeadDrop(s, i, items[0].Text(), Spelled(items[1..]) + rest);
  }

  /** What a stanza in front of the parser makes of it. */
  lemma {:induction false} ReadStanza(p: Parser, items: seq<Item>, rest: string)
    requires p.Valid() && p.phase.Structural? && Stanza(p.tags, items)
    requires p.raw[p.parsePos..] == Spelled(items) + rest
    ensures var w := Parse(p);
            && w.calls == p.calls + CallsOf(items, InCall(p))
            && (items[|items| - 1].End? ==> w.phase.Done? && w.raw[w.parsePos..] == rest)
            && (items[|items| - 1].Bad? ==> w.phase.Error? && w.error == items[|items| - 1].why)
    decreases |items|
  {
    hide Item.Is, Item.Text, Step, Tags.Shape;
    HeadText(p.raw, p.parsePos, items, rest);
    if items[0].Bad? {
      assert |items| == 1 && CallsOf(items[1..], None) == [];
      ReadBad(p, items[0]);
      assert p.calls + [] == p.calls;
    } else {
      var q := ReadItem(p, items[0]);
      if items[0].End? {
        assert |items| == 1 && CallsOf(items[1..], None) == [] && Spelled(items[1..]) == "";
        assert Parse(q) == q && "" + rest == rest;
      } else {
        StanzaTail(p.tags, items);
        ReadStanza(q, items[1..], rest);
        Assoc(p.calls, Completed(items[0], InCall(p)), CallsOf(items[1..], InCall(q)));
      }
    }
  }

  /** A parser that ends has a stanza in front of it. */
  lemma {:induction false} StanzaRead(p: Parser) returns (items: seq<Item>, rest: string)
    requires p.Valid() && p.phase.Structural? && !Parse(p).Live()
    ensures Stanza(p.tags, items) && p.raw[p.parsePos..] == Spelled(items) + rest
    decreases |p.raw| - p.parsePos
  {
    hide Item.Is, Item.Text, Step, Tags.Shape;
    var item := NextItem(p);
    var n := p.parsePos + |item.Text()|;
    assert p.raw[p.parsePos..n] == item.Text();
    assert p.raw[p.parsePos..] == item.Text() + p.raw[n..];
    if item.Last() {
      items, rest := [item], p.raw[n..];
      assert items[1..] == [] && item.Text() + "" == item.Text();
    } else {
      ItemSpans(p.tags, item);
      var q := ReadItem(p, item);
      var more;
      more, rest := StanzaRead(q);
      items := [item] + more;
      assert items[1..] == more;
      Assoc(item.Text(), Spelled(more), rest);
    }
  }

  lemma ItemSpans(t: Tags, item: Item)
    requires t.Shape() && item.Is(t)
    ensures |item.Text()| > 0
  {
    hide Item.Is, Tags.Shape;
    ItemTag(t, item);
  }

  lemma StartedAt(t: Tags, s: string)
    requires t.Shape()
    ensures var p := Started(t).Append(s);
            p.Valid() && p.phase.Structural? && p.raw[p.parsePos..] == s && p.calls == [] && InCall(p) == None && p.tags == t
  {
    assert "" + t.start == t.start;
  }

  /**
   The parser is done exactly when the text begins with a complete stanza: the calls are
   the stanza's, and what it has not read is what follows.  It fails exactly when the
   first tag that has no place in a stanza is complete, for that tag's reason.  In every
   other case it waits.
   */
  lemma ParsesStanzas(t: Tags, s: string, calls: seq<Call>, rest: string, why: Reason)
    requires t.Shape()
    ensures var w := Parse(Started(t).Append(s));
            && (w.phase.Done? && w.calls == calls && w.raw[w.parsePos..] == rest <==> Accepts(t, s, calls, rest))
            && (w.phase.Error? && w.error == why <==> Rejects(t, s, why))
            && (w.Live() <==> !w.phase.Done? && !w.phase.Error?)
  {
    hide Parse, Stanza, Tags.Shape;
    var p := Started(t).Append(s);
    StartedAt(t, s);
    ParsePhase(p);
    if !Parse(p).Live() {
      var items, rest1 := StanzaRead(p);
      StanzaDecides(p, s, items, rest1);
    }
    forall items, x | Stanza(t, items) && s == Spelled(items) + x
      ensures StanzaMakes(Parse(p), items, x)
    {
      StanzaDecides(p, s, items, x);
    }
  }

  ghost predicate StanzaMakes(w: Parser, items: seq<Item>, rest: string)
    requires w.Valid()
  {
    && items != [] && w.calls == CallsOf(items, None)
    && (if items[|items| - 1].End? then w.phase.Done? && w.raw[w.parsePos..] == rest
        else items[|items| - 1].Bad? && w.phase.Error? && w.error == items[|items| - 1].why)
  }

  lemma StanzaDecides(p: Parser, s: string, items: seq<Item>, rest: string)
    requires p.Valid() && p.phase.Structural? && p.raw[p.parsePos..] == s && p.calls == [] && InCall(p) == None
    requires Stanza(p.tags, items) && s == Spelled(items) + rest
    ensures StanzaMakes(Parse(p), items, rest)
  {
    hide Parse, Spelled, CallsOf, Item.Is;
    ReadStanza(p, items, rest);
    assert [] + CallsOf(items, None) == CallsOf(items, None);
  }

  /** No text is both accepted and rejected, and what is accepted is one stanza's calls. */
  lemma OneReading(t: Tags, s: string, calls: seq<Call>, rest: string, more: seq<Call>, x: string, why: Reason)
    requires t.Shape() && Accepts(t, s, calls, rest)
    ensures !Rejects(t, s, why)
    ensures Accepts(t, s, more, x) ==> more == calls && x == rest
  {
    hide Parse, Accepts, Rejects, Tags.Shape;
    ParsesStanzas(t, s, calls, rest, why);
    ParsesStanzas(t, s, more, x, why);
  }
}
