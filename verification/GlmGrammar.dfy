/**
 What a GLM stanza is, as text: names up to a tag, keys and values up to their closing
 tags.  One parse of a text, with the end of the message behind it, succeeds or fails
 exactly as the text reads.
 */
module GlmGrammar {
  import opened Strings
  import opened ToolCalls
  import opened GlmParser
  import opened GlmRoundTrip

  // ------------------------------------------------------------------------------------
  // Stanzas
  // ------------------------------------------------------------------------------------

  /** Where the next item stands. */
  datatype Where = Naming | InCall | Behind

  datatype Item =
    | Name(gap: string, region: string, name: string)
    | Pair(gap: string, key: string, name: string, gap2: string, value: string)
    | Close(gap: string)
    | Again(gap: string)
    // a complete stanza, with other text or the end of the message behind it
    | Stop(gap: string)
    | Over(gap: string)
    // what has no place in a stanza
    | NoName(gap: string)
    | NoTag(gap: string, region: string)
    | NoKey(gap: string)
    | OpenKey(gap: string)
    | EmptyKey(gap: string, blank: string)
    | NoValue(gap: string, key: string, name: string, gap2: string)
    | OpenValue(gap: string, key: string, name: string, gap2: string)
  {
    function At(): Where {
      if Name? || NoName? || NoTag? then Naming
      else if Again? || Stop? || Over? then Behind
      else InCall
    }

    /** Where the stanza goes on. */
    function Next(): Where {
      if Again? then Naming else if Close? then Behind else InCall
    }

    predicate Complete() {
      Stop? || Over?
    }

    predicate Broken() {
      !(Name? || Pair? || Close? || Again? || Complete())
    }

    function Why(): Reason {
      match this
      case NoName(_) => GlmNoName
      case NoTag(_, _) => GlmExpectedKeyOrClose
      case NoKey(_) => GlmExpectedKey
      case OpenKey(_) => GlmUnterminatedKey
      case EmptyKey(_, _) => GlmEmptyKey
      case NoValue(_, _, _, _) => GlmExpectedValue
      case OpenValue(_, _, _, _) => GlmUnterminatedValue
      case _ => NoReason
    }

    /** The item's text in front of `y`. */
    function Before(t: GlmTags, y: string): string {
      match this
      case Name(gap, region, _) => gap + (region + y)
      case Pair(gap, key, _, gap2, value) =>
        gap + (t.key + (key + (t.keyClose + (gap2 + (t.value + (value + (t.valueClose + y)))))))
      case Close(gap) => gap + (t.close + y)
      case Again(gap) => gap + (t.start + y)
      case Stop(gap) => gap + y
      case Over(gap) => gap + y
      case NoName(gap) => gap + y
      case NoTag(gap, region) => gap + (region + y)
      case NoKey(gap) => gap + y
      case OpenKey(gap) => gap + (t.key + y)
      case EmptyKey(gap, blank) => gap + (t.key + (blank + (t.keyClose + y)))
      case NoValue(gap, key, _, gap2) => gap + (t.key + (key + (t.keyClose + (gap2 + y))))
      case OpenValue(gap, key, _, gap2) => gap + (t.key + (key + (t.keyClose + (gap2 + (t.value + y)))))
    }

    /** The item is one, with `y` behind it. */
    ghost predicate Fits(t: GlmTags, y: string) {
      && Spaces(gap)
      && match this
         case Name(_, region, name) => UpToTag(region) && region != "" && Trimmed(region, name) && (t.key <= y || t.close <= y)
         case Pair(_, key, name, gap2, value) => Key(t, key, name) && Spaces(gap2) && Free(value, t.valueClose)
         case Close(_) => true
         case Again(_) => true
         case Stop(_) => Strays(y, t.start)
         case Over(_) => y == ""
         case NoName(_) => t.key <= y || t.close <= y
         case NoTag(_, region) =>
           UpToTag(region) && y != "" && y[0] == '<' && Strays(y, t.key) && Strays(y, t.close)
         case NoKey(_) => Strays(y, t.key) && Strays(y, t.close)
         case OpenKey(_) => Free(y, t.keyClose) && !Free(y, t.close)
         case EmptyKey(_, blank) => Spaces(blank)
         case NoValue(_, key, name, gap2) => Key(t, key, name) && Spaces(gap2) && Strays(y, t.value)
         case OpenValue(_, key, name, gap2) =>
           Key(t, key, name) && Spaces(gap2) && Free(y, t.valueClose) && !Free(y, t.close)
    }
  }

  /** Some text, no space, that does not begin with the tag and cannot come to. */
  ghost predicate Strays(y: string, tag: string) {
    y != "" && !IsSpace(y[0]) && !(tag <= y) && !(y < tag)
  }

  ghost predicate UpToTag(region: string) {
    (region != "" ==> !IsSpace(region[0])) && forall k :: 0 <= k < |region| ==> region[k] != '<'
  }

  /** The text without the spaces around it. */
  ghost predicate Trimmed(s: string, name: string) {
    && (exists a, b :: Spaces(a) && Spaces(b) && s == a + (name + b))
    && (name != "" ==> !IsSpace(name[0]) && !IsSpace(name[|name| - 1]))
  }

  ghost predicate Key(t: GlmTags, key: string, name: string) {
    Free(key, t.keyClose) && Trimmed(key, name) && name != ""
  }

  function Spelled(t: GlmTags, items: seq<Item>, rest: string): string {
    if items == [] then rest else items[0].Before(t, Spelled(t, items[1..], rest))
  }

  ghost predicate Stanza(t: GlmTags, at: Where, items: seq<Item>, rest: string)
    decreases |items|
  {
    && items != [] && items[0].At() == at && items[0].Fits(t, Spelled(t, items[1..], rest))
    && if items[0].Complete() || items[0].Broken() then |items| == 1
       else Stanza(t, items[0].Next(), items[1..], rest)
  }

  function CallBehind(item: Item, call: Call): Call {
    match item
    case Name(_, _, name) => Call(Some(name), [])
    case Pair(_, _, name, _, value) => call.(args := call.args + [Arg(name, value, true)])
    case Close(_) => NO_CALL
    case _ => call
  }

  function CallsOf(items: seq<Item>, call: Call): seq<Call> {
    if items == [] then []
    else (if items[0].Close? then [call] else []) + CallsOf(items[1..], CallBehind(items[0], call))
  }

  /** `s` is a complete stanza of these calls, and other text may follow. */
  ghost predicate Accepts(t: GlmTags, s: string, calls: seq<Call>) {
    exists items: seq<Item>, rest ::
      Stanza(t, Naming, items, rest) && s == Spelled(t, items, rest) && items[|items| - 1].Complete()
      && calls == CallsOf(items, NO_CALL)
  }

  ghost predicate Rejects(t: GlmTags, s: string, why: Reason) {
    exists items: seq<Item>, rest ::
      Stanza(t, Naming, items, rest) && s == Spelled(t, items, rest) && items[|items| - 1].Broken()
      && why == items[|items| - 1].Why()
  }

  // ------------------------------------------------------------------------------------
  // Strings
  // ------------------------------------------------------------------------------------

  lemma HeadTags(a: string, z: string, tag: string)
    ensures OccursAt(a + z, |a|, tag) <==> tag <= z
    ensures Partial(a + z, |a|, tag) <==> z < tag
  {
    OccursAtShift(a, z, 0, tag);
    PartialShift(a, z, 0, tag);
    if tag <= z {
      assert z[0..0 + |tag|] == tag;
    }
    if Partial(z, 0, tag) {
      assert z == tag[..|z|];
    }
  }

  lemma HeadTag(z: string, tag: string)
    ensures OccursAt(z, 0, tag) <==> tag <= z
    ensures Partial(z, 0, tag) <==> z < tag
  {
    HeadTags("", z, tag);
    assert "" + z == z;
  }

  lemma TrimIs(s: string)
    ensures Trimmed(s, Trim(s))
  {
    var from := SkipSpace(s, 0);
    var to := TrimEnd(s, from, |s|);
    TrimEndIs(s, from, |s|);
    hide TrimEnd;
    Between(s, from, to);
  }

  lemma Between(s: string, i: nat, j: nat)
    requires i <= j <= |s|
    requires forall k :: 0 <= k < |s| && (k < i || j <= k) ==> IsSpace(s[k])
    requires i < j ==> !IsSpace(s[i]) && !IsSpace(s[j - 1])
    ensures Trimmed(s, s[i..j])
  {
    hide IsSpace;
    Thirds(s, i, j);
    assert Spaces(s[..i]) && Spaces(s[j..]);
  }

  lemma Thirds(s: string, i: nat, j: nat)
    requires i <= j <= |s|
    ensures s == s[..i] + (s[i..j] + s[j..])
  {
    assert s[i..] == s[i..j] + s[j..];
  }

  lemma {:induction false} TrimEndIs(s: string, from: nat, end: nat)
    requires from <= end <= |s|
    ensures var to := TrimEnd(s, from, end);
            && (forall k :: to <= k < end ==> IsSpace(s[k])) && (to > from ==> !IsSpace(s[to - 1]))
    decreases end
  {
    if end > from && IsSpace(s[end - 1]) {
      TrimEndIs(s, from, end - 1);
    }
  }

  lemma TrimSpaces(s: string)
    requires Spaces(s)
    ensures Trim(s) == ""
  {
    SkipSpaceUnique(s, 0, |s|);
  }

  lemma TrimBetween(a: string, name: string, b: string)
    requires Spaces(a) && Spaces(b) && name != "" && !IsSpace(name[0]) && !IsSpace(name[|name| - 1])
    ensures Trim(a + (name + b)) == name
  {
    hide IsSpace, SkipSpace, TrimEnd;
    var s := a + (name + b);
    assert s[|a|] == name[0] && s[|a| + |name| - 1] == name[|name| - 1];
    SkipSpaceUnique(s, 0, |a|);
    TrimEndHere(s, |a|, |a| + |name|, |s|);
    assert s[|a|..|a| + |name|] == name;
  }

  lemma TrimHere(s: string, name: string)
    requires Trimmed(s, name)
    ensures Trim(s) == name
  {
    hide Trim, IsSpace;
    var a, b :| Spaces(a) && Spaces(b) && s == a + (name + b);
    if name == "" {
      assert s == a + b;
      TrimSpaces(s);
    } else {
      TrimBetween(a, name, b);
    }
  }

  lemma {:induction false} TrimEndHere(s: string, from: nat, to: nat, end: nat)
    requires from < to <= end <= |s| && !IsSpace(s[to - 1]) && forall k :: to <= k < end ==> IsSpace(s[k])
    ensures TrimEnd(s, from, end) == to
    decreases end
  {
    if to < end {
      TrimEndHere(s, from, to, end - 1);
    }
  }

  lemma BlankTrim(s: string)
    ensures Trim(s) == "" <==> Spaces(s)
  {
    hide Trim;
    TrimIs(s);
    var a, b :| Spaces(a) && Spaces(b) && s == a + (Trim(s) + b);
    if Spaces(s) {
      assert s == s + ("" + "");
      TrimHere(s, "");
    }
  }

  /** The first '<' behind a region. */
  lemma RegionEnds(region: string, y: string)
    requires UpToTag(region) && y != "" && y[0] == '<'
    ensures FindChar(region + y, '<', 0) == Some(|region|)
  {
    FindCharUnique(region + y, '<', 0, |region|);
  }

  /** Nothing to find. */
  lemma FindFree(a: string, y: string, tag: string)
    ensures Find(a + y, tag, |a|).None? <==> Free(y, tag)
  {
    hide OccursAt;
    FindShift(a, y, tag, 0);
    var r := Find(y, tag, 0);
    if r.None? {
      forall i ensures !OccursAt(y, i, tag) {
        if i < 0 {
          NotBefore(y, i, tag);
        }
      }
    }
  }

  lemma NotBefore(y: string, i: int, tag: string)
    requires i < 0
    ensures !OccursAt(y, i, tag)
  {
  }

  /** The first closing tag behind a prefix. */
  lemma FindBehind(a: string, v: string, tag: string, x: string)
    requires OneAngle(tag) && Free(v, tag)
    ensures Find(a + (v + (tag + x)), tag, |a|) == Some(|a| + |v|)
  {
    FindClosing(v, tag, x);
    FindShift(a, v + (tag + x), tag, 0);
  }

  /** A text up to the first spelling of the tag. */
  lemma UpTo(y: string, tag: string) returns (v: string, x: string)
    requires !Free(y, tag) && tag != ""
    ensures Free(v, tag) && y == v + (tag + x)
  {
    var i :| OccursAt(y, i, tag);
    var n := Find(y, tag, 0).value;
    v, x := y[..n], y[n + |tag|..];
    Thirds(y, n, n + |tag|);
    assert v + y[n..] == y;
    forall i ensures !OccursAt(v, i, tag) {
      OccursAtExtend(v, y[n..], i, tag);
      assert 0 <= i < n ==> !OccursAt(y, i, tag);
    }
  }

  // ------------------------------------------------------------------------------------
  // One pass behind spaces
  // ------------------------------------------------------------------------------------

  ghost function At(p: Glm): Where {
    if p.afterCall then Behind else if p.current.name.None? then Naming else InCall
  }

  /** At the beginning of an item. */
  ghost predicate Ready(p: Glm) {
    p.parsePos == 0 && p.phase.Structural? && p.tags.Shape() && (p.afterCall ==> p.current == NO_CALL)
  }

  /** What a pass behind spaces makes of the parse. */
  lemma ParseGap(p: Glm, gap: string, y: string)
    requires Ready(p) && p.raw == gap + y && Spaces(gap) && (y != "" ==> !IsSpace(y[0]))
    ensures var o := TagStep(With(p, y));
            && (o.Go? && o.p.Live() ==> Rest(Parse(p)) == Rest(Parse(o.p)))
            && (o.Go? && !o.p.Live() ==> Rest(Parse(p)) == Rest(o.p))
            && (o.Wait? ==> Rest(Parse(p)) == With(p, y))
  {
    hide TagStep, Rest, GlmTags.Shape;
    var n := |gap|;
    SkipSpaceUnique(p.raw, 0, n);
    var q := p.(parsePos := n);
    assert SkipSpaces(p) == q && Step(p) == TagStep(q);
    RestIs(q);
    assert q.raw[n..] == y;
    assert Rest(q) == With(p, y);
    TagStepRest(q);
    hide Step;
    var o, o' := TagStep(q), TagStep(Rest(q));
    if o.Go? && o.p.Live() {
      ParseRest(o.p);
      ParseRest(o'.p);
      assert Rest(o.p).phase == o.p.phase && Rest(o'.p).phase == o'.p.phase;
    }
  }

  lemma ValuePass(q: Glm, value: string, y: string)
    requires q.parsePos == 0 && q.phase.ParamValue? && OneAngle(q.tags.valueClose)
    requires q.raw == value + (q.tags.valueClose + y) && Free(value, q.tags.valueClose)
    ensures ValueStep(q) == Go(q.(phase := Structural, paramName := "", parsePos := |value| + |q.tags.valueClose|,
                current := q.current.(args := q.current.args + [Arg(q.paramName, value, true)])))
  {
    hide Find;
    FindClosing(value, q.tags.valueClose, y);
    assert q.raw[0..|value|] == value;
  }

  /** A value that is closed, ahead of the parser. */
  lemma ParseValue(q: Glm, value: string, y: string)
    requires q.parsePos == 0 && q.phase.ParamValue? && q.tags.Shape()
    requires q.raw == value + (q.tags.valueClose + y) && Free(value, q.tags.valueClose)
    ensures Rest(Parse(q)) == Rest(Parse(With(q, y).(phase := Structural, paramName := "",
                current := q.current.(args := q.current.args + [Arg(q.paramName, value, true)]))))
  {
    hide Rest, ValueStep, GlmTags.Shape, OneAngle;
    KeyCloseAngle(q.tags);
    ValuePass(q, value, y);
    var r := ValueStep(q).p;
    assert Step(q) == Go(r) && r.Live();
    Assoc(value, q.tags.valueClose, y);
    assert (value + q.tags.valueClose + y)[|value + q.tags.valueClose|..] == y;
    RestIs(r);
    ParseRest(r);
    assert Rest(r) == With(r, y);
  }

  lemma ParseOpenValue(q: Glm)
    requires q.parsePos == 0 && q.phase.ParamValue? && q.tags.Shape() && Free(q.raw, q.tags.valueClose)
    ensures Parse(q) == if Free(q.raw, q.tags.close) then q else q.Fail(GlmUnterminatedValue)
  {
    hide Find;
    var y := q.raw;
    assert "" + y == y;
    FindFree("", y, q.tags.valueClose);
    FindFree("", y, q.tags.close);
  }

  // ------------------------------------------------------------------------------------
  // The items
  // ------------------------------------------------------------------------------------

  /** Behind a complete name. */
  lemma NamePass(u: Glm, region: string, y: string)
    requires Ready(u) && At(u) == Naming && u.raw == region + y && UpToTag(region) && y != "" && y[0] == '<'
    ensures TagStep(u) ==
            if u.tags.key <= y || u.tags.close <= y then
              if Trim(region) == "" then Go(u.Fail(GlmNoName))
              else Go(u.(current := Call(Some(Trim(region)), []), parsePos := |region|))
            else if y < u.tags.key || y < u.tags.close then Wait(u)
            else Go(u.Fail(GlmExpectedKeyOrClose))
  {
    hide OccursAt, Partial, FindChar, Trim;
    RegionEnds(region, y);
    HeadTags(region, y, u.tags.key);
    HeadTags(region, y, u.tags.close);
    assert u.raw[0..|region|] == region;
  }

  lemma NoNamePass(u: Glm)
    requires Ready(u) && At(u) == Naming && forall k :: 0 <= k < |u.raw| ==> u.raw[k] != '<'
    ensures TagStep(u) == Wait(u)
  {
  }

  /** A text does not begin with two tags that differ in their second byte. */
  lemma OneTagOnly(y: string, tag: string, other: string)
    requires OneAngle(tag) && OneAngle(other) && tag[1] != other[1] && tag <= y
    ensures !(other <= y) && !(y < other)
  {
    assert y[1] == tag[1];
  }

  /** In a call: the end of it, a key, or neither. */
  lemma CallPass(u: Glm)
    requires Ready(u) && At(u) == InCall && u.raw != ""
    ensures var t, y := u.tags, u.raw;
            && (t.close <= y ==> TagStep(u) == Go(u.(parsePos := |t.close|, calls := u.calls + [u.current],
                                                    current := NO_CALL, afterCall := true)))
            && (t.key <= y ==> OccursAt(y, 0, t.key) && TagStep(u) == KeyStep(u))
            && (!(t.close <= y) && !(t.key <= y) ==>
                  TagStep(u) == if y < t.close || y < t.key then Wait(u) else Go(u.Fail(GlmExpectedKey)))
  {
    hide OccursAt, Partial, KeyStep;
    var t, y := u.tags, u.raw;
    HeadTag(y, t.close);
    HeadTag(y, t.key);
    if t.key <= y {
      OneTagOnly(y, t.key, t.close);
    }
  }

  lemma BehindPass(u: Glm)
    requires Ready(u) && At(u) == Behind && u.raw != ""
    ensures TagStep(u) ==
            if u.tags.start <= u.raw then Go(u.(parsePos := |u.tags.start|, afterCall := false))
            else if u.raw < u.tags.start then Wait(u)
            else Go(u.(afterCall := false, phase := Done))
  {
    hide OccursAt, Partial;
    HeadTag(u.raw, u.tags.start);
  }

  /** A key that is closed. */
  lemma KeyPass(u: Glm, key: string, gap: string, z: string)
    requires Ready(u) && Free(key, u.tags.keyClose) && Spaces(gap) && (z != "" ==> !IsSpace(z[0]))
    requires u.raw == u.tags.key + (key + (u.tags.keyClose + (gap + z)))
    ensures OccursAt(u.raw, 0, u.tags.key)
    ensures KeyStep(u) ==
            if Trim(key) == "" then Go(u.Fail(GlmEmptyKey))
            else if u.tags.value <= z then
              Go(u.(paramName := Trim(key), parsePos := |u.raw| - |z| + |u.tags.value|, phase := ParamValue))
            else if z < u.tags.value then Wait(u)
            else Go(u.Fail(GlmExpectedValue))
  {
    hide OccursAt, Partial, Find, Trim, SkipSpace, GlmTags.Shape;
    var t := u.tags;
    assert OneAngle(t.keyClose) by { KeyCloseAngle(t); }
    HeadTag(u.raw, t.key);
    FindBehind(t.key, key, t.keyClose, gap + z);
    var from, end := |t.key|, |t.key| + |key|;
    assert u.raw[from..end] == key;
    var head := t.key + (key + t.keyClose);
    assert u.raw == head + (gap + z) == (head + gap) + z;
    SkipSpaceShift(head, gap + z, 0);
    assert forall k :: 0 <= k < |gap| ==> (gap + z)[k] == gap[k];
    SkipSpaceUnique(gap + z, 0, |gap|);
    HeadTags(head + gap, z, t.value);
  }

  lemma KeyCloseAngle(t: GlmTags)
    requires t.Shape()
    ensures OneAngle(t.keyClose) && OneAngle(t.valueClose) && OneAngle(t.key) && OneAngle(t.value) && OneAngle(t.close)
    ensures OneAngle(t.start)
  {
  }

  lemma OpenKeyPass(u: Glm, y: string)
    requires Ready(u) && u.raw == u.tags.key + y && Free(y, u.tags.keyClose)
    ensures OccursAt(u.raw, 0, u.tags.key)
    ensures KeyStep(u) == if Free(y, u.tags.close) then Wait(u) else Go(u.Fail(GlmUnterminatedKey))
  {
    hide OccursAt, Find;
    HeadTag(u.raw, u.tags.key);
    FindFree(u.tags.key, y, u.tags.keyClose);
    FindFree(u.tags.key, y, u.tags.close);
  }

  // ------------------------------------------------------------------------------------
  // Reading an item
  // ------------------------------------------------------------------------------------

  /** A parser that goes on with `y`, seen from there. */
  lemma Onward(o: Glm, y: string)
    requires o.Valid() && o.tags.Shape() && o.raw[o.parsePos..] == y
    ensures Rest(Parse(o)) == Rest(Parse(With(o, y)))
  {
    hide Rest, GlmTags.Shape;
    RestIs(o);
    ParseRest(o);
    assert Rest(o) == With(o, y);
  }

  /** The parser behind an item, with `y` ahead. */
  ghost function Passed(p: Glm, item: Item, y: string): Glm {
    var q := With(p, y);
    match item
    case Name(_, _, name) => q.(current := Call(Some(name), []))
    case Pair(_, _, name, _, value) =>
      q.(paramName := "", current := p.current.(args := p.current.args + [Arg(name, value, true)]))
    case Close(_) => q.(calls := p.calls + [p.current], current := NO_CALL, afterCall := true)
    case Again(_) => q.(afterCall := false)
    case _ => q
  }

  lemma PassedReady(p: Glm, item: Item, y: string)
    requires Ready(p) && At(p) == item.At() && item.Fits(p.tags, y) && !item.Complete() && !item.Broken()
    ensures var q := Passed(p, item, y);
            && Ready(q) && At(q) == item.Next() && q.raw == y && q.tags == p.tags
            && q.calls == p.calls + (if item.Close? then [p.current] else [])
            && q.current == CallBehind(item, p.current)
  {
    hide GlmTags.Shape, Trimmed, UpToTag, Key;
  }

  lemma ReadName(p: Glm, item: Item, y: string)
    requires Ready(p) && At(p) == Naming && item.Name? && item.Fits(p.tags, y) && p.raw == item.Before(p.tags, y)
    ensures Rest(Parse(p)) == Rest(Parse(Passed(p, item, y)))
  {
    hide Rest, Parse, TagStep, GlmTags.Shape, Trimmed;
    KeyCloseAngle(p.tags);
    var u := With(p, item.region + y);
    ParseGap(p, item.gap, item.region + y);
    assert y != "" && y[0] == '<';
    NamePass(u, item.region, y);
    TrimHere(item.region, item.name);
    NameNotEmpty(item.region, item.name);
    assert (item.region + y)[|item.region|..] == y;
    Onward(TagStep(u).p, y);
  }

  /** A region that begins with no space is a name. */
  lemma NameNotEmpty(region: string, name: string)
    requires Trimmed(region, name) && region != "" && !IsSpace(region[0])
    ensures name != ""
  {
    var a, b :| Spaces(a) && Spaces(b) && region == a + (name + b);
    assert Spaces(a + b);
    assert name == "" ==> region == a + b;
  }

  /** A key and the opening of its value. */
  function KeyText(t: GlmTags, key: string, gap: string, v: string): string {
    t.key + (key + (t.keyClose + (gap + (t.value + v))))
  }

  /** The parser in a value. */
  function InValue(p: Glm, name: string, v: string): Glm {
    With(p, v).(paramName := name, phase := ParamValue)
  }

  lemma ValueAhead(p: Glm, gap: string, key: string, name: string, gap2: string, v: string)
    requires Ready(p) && At(p) == InCall && Spaces(gap) && Key(p.tags, key, name) && Spaces(gap2)
    requires p.raw == gap + KeyText(p.tags, key, gap2, v)
    ensures Rest(Parse(p)) == Rest(Parse(InValue(p, name, v)))
  {
    hide Rest, Parse, TagStep, KeyStep, GlmTags.Shape, Trimmed, Free, OneAngle;
    var t := p.tags;
    TagHeads(t);
    var x := KeyText(t, key, gap2, v);
    ParseGap(p, gap, x);
    CallPass(With(p, x));
    KeyPass(With(p, x), key, gap2, t.value + v);
    TrimHere(key, name);
    var o := TagStep(With(p, x)).p;
    TailOf(x, t.key + key + t.keyClose + gap2 + t.value, v);
    Onward(o, v);
  }

  lemma ReadPair(p: Glm, item: Item, y: string)
    requires Ready(p) && At(p) == InCall && item.Pair? && item.Fits(p.tags, y) && p.raw == item.Before(p.tags, y)
    ensures Rest(Parse(p)) == Rest(Parse(Passed(p, item, y)))
  {
    hide Rest, Parse, Trimmed, Free, Key, GlmTags.Shape;
    var v := item.value + (p.tags.valueClose + y);
    ValueAhead(p, item.gap, item.key, item.name, item.gap2, v);
    ParseValue(InValue(p, item.name, v), item.value, y);
  }

  /** No tag begins with a space. */
  lemma TagHeads(t: GlmTags)
    requires t.Shape()
    ensures OneAngle(t.keyClose) && OneAngle(t.valueClose)
    ensures t.key != "" && t.key[0] == '<' && t.close != "" && t.close[0] == '<'
    ensures t.value != "" && t.value[0] == '<' && t.start != "" && t.start[0] == '<'
  {
  }

  lemma TailOf(x: string, a: string, v: string)
    ensures x == a + v ==> x[|x| - |v|..] == v
  {
  }

  lemma ReadClose(p: Glm, item: Item, y: string)
    requires Ready(p) && At(p) == InCall && item.Close? && item.Fits(p.tags, y) && p.raw == item.Before(p.tags, y)
    ensures Rest(Parse(p)) == Rest(Parse(Passed(p, item, y)))
  {
    hide Rest, Parse, TagStep, KeyStep, GlmTags.Shape;
    TagHeads(p.tags);
    var u := With(p, p.tags.close + y);
    ParseGap(p, item.gap, u.raw);
    CallPass(u);
    assert u.raw[|p.tags.close|..] == y;
    Onward(TagStep(u).p, y);
  }

  lemma ReadAgain(p: Glm, item: Item, y: string)
    requires Ready(p) && At(p) == Behind && item.Again? && item.Fits(p.tags, y) && p.raw == item.Before(p.tags, y)
    ensures Rest(Parse(p)) == Rest(Parse(Passed(p, item, y)))
  {
    hide Rest, Parse, TagStep, GlmTags.Shape;
    TagHeads(p.tags);
    var u := With(p, p.tags.start + y);
    ParseGap(p, item.gap, u.raw);
    BehindPass(u);
    assert u.raw[|p.tags.start|..] == y;
    Onward(TagStep(u).p, y);
  }

  /** Reading an item that is there. */
  lemma ReadItem(p: Glm, item: Item, y: string)
    requires Ready(p) && At(p) == item.At() && item.Fits(p.tags, y) && p.raw == item.Before(p.tags, y)
    requires !item.Complete() && !item.Broken()
    ensures Rest(Parse(p)) == Rest(Parse(Passed(p, item, y)))
  {
    hide Rest, Parse, GlmTags.Shape, Item.Fits, Item.Before, Passed;
    match item
    case Name(_, _, _) => ReadName(p, item, y);
    case Pair(_, _, _, _, _) => ReadPair(p, item, y);
    case Close(_) => ReadClose(p, item, y);
    case Again(_) => ReadAgain(p, item, y);
  }

  // ---- the last item -------------------------------------------------------------------

  /** What the last item makes of the parse. */
  ghost predicate EndsAs(w: Glm, p: Glm, item: Item) {
    && w.calls == p.calls
    && match item
       case Stop(_) => w.phase.Done?
       case Over(_) => w.Live() && w.afterCall && w.raw == ""
       case _ => w.phase.Error? && w.error == item.Why()
  }

  lemma EndBehind(p: Glm, item: Item, y: string)
    requires Ready(p) && At(p) == Behind && item.Complete() && item.Fits(p.tags, y) && p.raw == item.Before(p.tags, y)
    ensures EndsAs(Rest(Parse(p)), p, item)
  {
    hide Parse, GlmTags.Shape;
    ParseGap(p, item.gap, y);
    if y != "" {
      BehindPass(With(p, y));
    }
  }

  lemma EndNoName(p: Glm, item: Item, y: string)
    requires Ready(p) && At(p) == Naming && item.NoName? && item.Fits(p.tags, y) && p.raw == item.Before(p.tags, y)
    ensures EndsAs(Rest(Parse(p)), p, item)
  {
    hide Parse, GlmTags.Shape, TagStep;
    TagHeads(p.tags);
    assert "" + y == y && Trim("") == "";
    ParseGap(p, item.gap, y);
    NamePass(With(p, y), "", y);
  }

  lemma EndNoTag(p: Glm, item: Item, y: string)
    requires Ready(p) && At(p) == Naming && item.NoTag? && item.Fits(p.tags, y) && p.raw == item.Before(p.tags, y)
    ensures EndsAs(Rest(Parse(p)), p, item)
  {
    hide Parse, GlmTags.Shape, TagStep, Trim;
    ParseGap(p, item.gap, item.region + y);
    NamePass(With(p, item.region + y), item.region, y);
  }

  lemma EndNoKey(p: Glm, item: Item, y: string)
    requires Ready(p) && At(p) == InCall && item.NoKey? && item.Fits(p.tags, y) && p.raw == item.Before(p.tags, y)
    ensures EndsAs(Rest(Parse(p)), p, item)
  {
    hide Parse, GlmTags.Shape, TagStep, KeyStep;
    ParseGap(p, item.gap, y);
    CallPass(With(p, y));
  }

  lemma EndOpenKey(p: Glm, item: Item, y: string)
    requires Ready(p) && At(p) == InCall && item.OpenKey? && item.Fits(p.tags, y) && p.raw == item.Before(p.tags, y)
    ensures EndsAs(Rest(Parse(p)), p, item)
  {
    hide Parse, GlmTags.Shape, TagStep, KeyStep, Free;
    TagHeads(p.tags);
    var x := p.tags.key + y;
    ParseGap(p, item.gap, x);
    CallPass(With(p, x));
    OpenKeyPass(With(p, x), y);
  }

  lemma BlankFree(s: string, tag: string)
    requires Spaces(s) && OneAngle(tag)
    ensures Free(s, tag)
  {
    forall i ensures !OccursAt(s, i, tag) {
      if 0 <= i {
        Mismatch(s, i, tag, 0);
      }
    }
  }

  lemma EndKey(p: Glm, item: Item, y: string)
    requires Ready(p) && At(p) == InCall && (item.EmptyKey? || item.NoValue?)
    requires item.Fits(p.tags, y) && p.raw == item.Before(p.tags, y)
    ensures EndsAs(Rest(Parse(p)), p, item)
  {
    hide Parse, GlmTags.Shape, TagStep, KeyStep, Free, OneAngle, Trimmed, Trim;
    var t := p.tags;
    TagHeads(t);
    var key := if item.NoValue? then item.key else item.blank;
    var gap2 := if item.NoValue? then item.gap2 else y[..SkipSpace(y, 0)];
    var z := if item.NoValue? then y else y[SkipSpace(y, 0)..];
    assert item.EmptyKey? ==> y == gap2 + z;
    var x := t.key + (key + (t.keyClose + (gap2 + z)));
    ParseGap(p, item.gap, x);
    CallPass(With(p, x));
    if item.NoValue? {
      TrimHere(key, item.name);
    } else {
      BlankTrim(key);
      BlankFree(key, t.keyClose);
    }
    KeyPass(With(p, x), key, gap2, z);
  }

  lemma EndValue(p: Glm, item: Item, y: string)
    requires Ready(p) && At(p) == InCall && item.OpenValue?
    requires item.Fits(p.tags, y) && p.raw == item.Before(p.tags, y)
    ensures EndsAs(Rest(Parse(p)), p, item)
  {
    hide Parse, GlmTags.Shape, Free, Key;
    ValueAhead(p, item.gap, item.key, item.name, item.gap2, y);
    ParseOpenValue(InValue(p, item.name, y));
  }

  lemma EndItem(p: Glm, item: Item, y: string)
    requires Ready(p) && At(p) == item.At() && item.Fits(p.tags, y) && p.raw == item.Before(p.tags, y)
    requires item.Complete() || item.Broken()
    ensures EndsAs(Rest(Parse(p)), p, item)
  {
    hide Rest, Parse, GlmTags.Shape, Item.Fits, Item.Before, EndsAs;
    match item
    case Stop(_) => EndBehind(p, item, y);
    case Over(_) => EndBehind(p, item, y);
    case NoName(_) => EndNoName(p, item, y);
    case NoTag(_, _) => EndNoTag(p, item, y);
    case NoKey(_) => EndNoKey(p, item, y);
    case OpenKey(_) => EndOpenKey(p, item, y);
    case EmptyKey(_, _) => EndKey(p, item, y);
    case NoValue(_, _, _, _) => EndKey(p, item, y);
    case OpenValue(_, _, _, _) => EndValue(p, item, y);
  }

  // ------------------------------------------------------------------------------------
  // Finding an item
  // ------------------------------------------------------------------------------------

  /** The parse has come to its end, if the message has. */
  ghost predicate Ended(w: Glm) {
    w.phase.Done? || w.phase.Error? || (w.Live() && w.afterCall && Spaces(w.raw))
  }

  /** The item is there. */
  ghost predicate There(p: Glm, item: Item, y: string) {
    item.At() == At(p) && item.Fits(p.tags, y) && p.raw == item.Before(p.tags, y)
  }

  /** The spaces ahead. */
  lemma Gap(x: string) returns (gap: string, y: string)
    ensures x == gap + y && Spaces(gap) && (y != "" ==> !IsSpace(y[0]))
  {
    var n := SkipSpace(x, 0);
    gap, y := x[..n], x[n..];
  }

  lemma NextBehind(p: Glm, gap: string, y: string) returns (item: Item, z: string)
    requires Ready(p) && At(p) == Behind && p.raw == gap + y && Spaces(gap) && (y != "" ==> !IsSpace(y[0]))
    requires Ended(Rest(Parse(p)))
    ensures There(p, item, z)
  {
    hide Parse, GlmTags.Shape;
    ParseGap(p, gap, y);
    if y == "" {
      item, z := Over(gap), "";
    } else {
      BehindPass(With(p, y));
      if p.tags.start <= y {
        item, z := Again(gap), y[|p.tags.start|..];
        assert y == p.tags.start + z;
      } else {
        item, z := Stop(gap), y;
      }
    }
  }

  lemma NextNaming(p: Glm, gap: string, y: string) returns (item: Item, z: string)
    requires Ready(p) && At(p) == Naming && p.raw == gap + y && Spaces(gap) && (y != "" ==> !IsSpace(y[0]))
    requires Ended(Rest(Parse(p)))
    ensures There(p, item, z)
  {
    hide Parse, GlmTags.Shape, TagStep;
    ParseGap(p, gap, y);
    var u := With(p, y);
    var lt := FindChar(y, '<', 0);
    if lt.None? {
      NoNamePass(u);
    }
    assert y == y[..lt.value] + y[lt.value..];
    z := y[lt.value..];
    item := NextRegion(p, gap, y[..lt.value], z);
  }

  /** A region in front of a tag is a name, unless there is nothing in it. */
  lemma RegionItem(p: Glm, gap: string, region: string, y: string) returns (item: Item)
    requires At(p) == Naming && p.raw == gap + (region + y) && Spaces(gap) && UpToTag(region)
    requires y != "" && y[0] == '<'
    requires p.tags.key <= y || p.tags.close <= y || (Strays(y, p.tags.key) && Strays(y, p.tags.close))
    ensures There(p, item, y)
  {
    hide Trim, Trimmed, UpToTag, Strays;
    TrimIs(region);
    if !(p.tags.key <= y || p.tags.close <= y) {
      item := NoTag(gap, region);
    } else if region == "" {
      assert "" + y == y;
      item := NoName(gap);
    } else {
      item := Name(gap, region, Trim(region));
    }
  }

  lemma NextRegion(p: Glm, gap: string, region: string, y: string) returns (item: Item)
    requires Ready(p) && At(p) == Naming && p.raw == gap + (region + y) && Spaces(gap) && UpToTag(region)
    requires y != "" && y[0] == '<' && Ended(Rest(Parse(p)))
    ensures There(p, item, y)
  {
    hide Parse, GlmTags.Shape, TagStep, Trimmed, Trim, There;
    ParseGap(p, gap, region + y);
    NamePass(With(p, region + y), region, y);
    item := RegionItem(p, gap, region, y);
  }

  lemma CloseThere(p: Glm, gap: string, y: string)
    requires At(p) == InCall && p.raw == gap + (p.tags.close + y) && Spaces(gap)
    ensures There(p, Close(gap), y)
  {
  }

  lemma NoKeyThere(p: Glm, gap: string, y: string)
    requires At(p) == InCall && p.raw == gap + y && Spaces(gap) && Strays(y, p.tags.key) && Strays(y, p.tags.close)
    ensures There(p, NoKey(gap), y)
  {
    hide Strays;
  }

  lemma NextInCall(p: Glm, gap: string, y: string) returns (item: Item, z: string)
    requires Ready(p) && At(p) == InCall && p.raw == gap + y && Spaces(gap) && (y != "" ==> !IsSpace(y[0]))
    requires Ended(Rest(Parse(p)))
    ensures There(p, item, z)
  {
    hide Parse, GlmTags.Shape, TagStep, KeyStep, There;
    ParseGap(p, gap, y);
    var u, t := With(p, y), p.tags;
    WaitNothing(u);
    CallPass(u);
    if t.close <= y {
      item, z := Close(gap), y[|t.close|..];
      assert y == t.close + z;
      CloseThere(p, gap, z);
    } else if t.key <= y {
      assert y == t.key + y[|t.key|..];
      item, z := NextKey(p, gap, y[|t.key|..]);
    } else {
      item, z := NoKey(gap), y;
      NoKeyThere(p, gap, y);
    }
  }

  lemma WaitNothing(u: Glm)
    requires Ready(u)
    ensures u.raw == "" ==> TagStep(u) == Wait(u)
  {
  }

  lemma NextOpenKey(p: Glm, gap: string, y: string)
    requires Ready(p) && At(p) == InCall && p.raw == gap + (p.tags.key + y) && Spaces(gap) && Free(y, p.tags.keyClose)
    requires Ended(Rest(Parse(p)))
    ensures There(p, OpenKey(gap), y)
  {
    hide Parse, GlmTags.Shape, TagStep, KeyStep, Free, OneAngle;
    TagHeads(p.tags);
    var x := p.tags.key + y;
    ParseGap(p, gap, x);
    CallPass(With(p, x));
    OpenKeyPass(With(p, x), y);
  }

  lemma NextKey(p: Glm, gap: string, y: string) returns (item: Item, z: string)
    requires Ready(p) && At(p) == InCall && p.raw == gap + (p.tags.key + y) && Spaces(gap)
    requires Ended(Rest(Parse(p)))
    ensures There(p, item, z)
  {
    hide Parse, GlmTags.Shape, Free, OneAngle, There, Rest, Ended, IsSpace, Spaces;
    var t := p.tags;
    if Free(y, t.keyClose) {
      NextOpenKey(p, gap, y);
      item, z := OpenKey(gap), y;
    } else {
      KeyCloseAngle(t);
      AngleLong(t.keyClose);
      var key, y2 := UpTo(y, t.keyClose);
      item, z := NextPair(p, gap, key, y2);
    }
  }

  lemma AngleLong(tag: string)
    requires OneAngle(tag)
    ensures tag != ""
  {
  }

  lemma KeyThere(p: Glm, gap: string, key: string, y: string)
    requires At(p) == InCall && p.raw == gap + (p.tags.key + (key + (p.tags.keyClose + y))) && Spaces(gap)
    ensures Spaces(key) ==> There(p, EmptyKey(gap, key), y)
    ensures forall name, gap2, z :: Key(p.tags, key, name) && Spaces(gap2) && y == gap2 + z && Strays(z, p.tags.value) ==>
              There(p, NoValue(gap, key, name, gap2), z)
  {
    hide Strays, Key, Spaces;
  }

  /** A key that is not empty is one. */
  lemma KeyIs(t: GlmTags, key: string)
    requires Free(key, t.keyClose) && Trim(key) != ""
    ensures Key(t, key, Trim(key))
  {
    hide Trim, Trimmed, Free;
    TrimIs(key);
  }

  /** Behind a closed key. */
  lemma NextPair(p: Glm, gap: string, key: string, y: string) returns (item: Item, z: string)
    requires Ready(p) && At(p) == InCall && Spaces(gap) && Free(key, p.tags.keyClose)
    requires p.raw == gap + (p.tags.key + (key + (p.tags.keyClose + y)))
    requires Ended(Rest(Parse(p)))
    ensures There(p, item, z)
  {
    hide Parse, GlmTags.Shape, TagStep, KeyStep, Free, Find, OneAngle, Trim, There, Key, Spaces;
    var t := p.tags;
    TagHeads(t);
    var gap2, y2 := Gap(y);
    var x := t.key + (key + (t.keyClose + (gap2 + y2)));
    ParseGap(p, gap, x);
    CallPass(With(p, x));
    KeyPass(With(p, x), key, gap2, y2);
    BlankTrim(key);
    KeyThere(p, gap, key, y);
    if Trim(key) == "" {
      item, z := EmptyKey(gap, key), y;
    } else {
      KeyIs(t, key);
      if t.value <= y2 {
        var v := y2[|t.value|..];
        assert y2 == t.value + v;
        ValueAhead(p, gap, key, Trim(key), gap2, v);
        item, z := NextValue(p, gap, key, Trim(key), gap2, v);
      } else {
        item, z := NoValue(gap, key, Trim(key), gap2), y2;
      }
    }
  }

  lemma NextOpenValue(p: Glm, gap: string, key: string, name: string, gap2: string, v: string)
    requires Ready(p) && At(p) == InCall && Spaces(gap) && Key(p.tags, key, name) && Spaces(gap2)
    requires p.raw == gap + KeyText(p.tags, key, gap2, v) && Free(v, p.tags.valueClose)
    requires Ended(Rest(Parse(InValue(p, name, v))))
    ensures There(p, OpenValue(gap, key, name, gap2), v)
  {
    hide Parse, GlmTags.Shape, Free, Key;
    ParseOpenValue(InValue(p, name, v));
  }

  lemma PairThere(p: Glm, gap: string, key: string, name: string, gap2: string, value: string, y: string)
    requires At(p) == InCall && Spaces(gap) && Key(p.tags, key, name) && Spaces(gap2) && Free(value, p.tags.valueClose)
    requires p.raw == gap + KeyText(p.tags, key, gap2, value + (p.tags.valueClose + y))
    ensures There(p, Pair(gap, key, name, gap2, value), y)
  {
    hide Free, Key;
  }

  lemma NextValue(p: Glm, gap: string, key: string, name: string, gap2: string, v: string)
      returns (item: Item, z: string)
    requires Ready(p) && At(p) == InCall && Spaces(gap) && Key(p.tags, key, name) && Spaces(gap2)
    requires p.raw == gap + KeyText(p.tags, key, gap2, v)
    requires Ended(Rest(Parse(InValue(p, name, v))))
    ensures There(p, item, z)
  {
    hide Parse, GlmTags.Shape, Free, OneAngle, Key, KeyText, There, Ended, Rest, InValue;
    var t := p.tags;
    if Free(v, t.valueClose) {
      NextOpenValue(p, gap, key, name, gap2, v);
      item, z := OpenValue(gap, key, name, gap2), v;
    } else {
      KeyCloseAngle(t);
      AngleLong(t.valueClose);
      var value;
      value, z := UpTo(v, t.valueClose);
      PairThere(p, gap, key, name, gap2, value, z);
      item := Pair(gap, key, name, gap2, value);
    }
  }

  /** A parse that ends has an item ahead. */
  lemma NextItem(p: Glm) returns (item: Item, y: string)
    requires Ready(p) && Ended(Rest(Parse(p)))
    ensures There(p, item, y)
  {
    hide Parse, Rest, GlmTags.Shape, There;
    var gap, z := Gap(p.raw);
    match At(p)
    case Naming => item, y := NextNaming(p, gap, z);
    case InCall => item, y := NextInCall(p, gap, z);
    case Behind => item, y := NextBehind(p, gap, z);
  }

  // ------------------------------------------------------------------------------------
  // Whole stanzas
  // ------------------------------------------------------------------------------------

  /** What a stanza makes of the parse. */
  ghost predicate Makes(w: Glm, calls: seq<Call>, items: seq<Item>) {
    && items != [] && w.calls == calls
    && var last := items[|items| - 1];
       && (last.Stop? ==> w.phase.Done?)
       && (last.Over? ==> w.Live() && w.afterCall && w.raw == "")
       && (last.Broken() ==> w.phase.Error? && w.error == last.Why())
       && (last.Complete() || last.Broken())
  }

  lemma {:induction false} ReadStanza(p: Glm, items: seq<Item>, rest: string)
    requires Ready(p) && Stanza(p.tags, At(p), items, rest) && p.raw == Spelled(p.tags, items, rest)
    ensures Makes(Rest(Parse(p)), p.calls + CallsOf(items, p.current), items)
    decreases |items|
  {
    hide Item.Fits, Item.Before, Parse, Rest, GlmTags.Shape, Passed;
    var item, y := items[0], Spelled(p.tags, items[1..], rest);
    if item.Complete() || item.Broken() {
      EndItem(p, item, y);
      assert items[1..] == [] && p.calls + ([] + []) == p.calls;
    } else {
      ReadItem(p, item, y);
      PassedReady(p, item, y);
      var q := Passed(p, item, y);
      ReadStanza(q, items[1..], rest);
      assert items[1..][|items| - 2] == items[|items| - 1];
      Assoc(p.calls, if item.Close? then [p.current] else [], CallsOf(items[1..], q.current));
    }
  }

  lemma Shorter(t: GlmTags, item: Item, y: string)
    requires t.Shape() && item.Fits(t, y) && !item.Complete() && !item.Broken()
    ensures |item.Before(t, y)| > |y|
  {
    hide Trimmed, Free, UpToTag;
  }

  lemma {:induction false} StanzaRead(p: Glm) returns (items: seq<Item>, rest: string)
    requires Ready(p) && Ended(Rest(Parse(p)))
    ensures Stanza(p.tags, At(p), items, rest) && p.raw == Spelled(p.tags, items, rest)
    decreases |p.raw|
  {
    hide Item.Fits, Item.Before, Parse, Rest, GlmTags.Shape, Passed, Ended;
    var item, y := NextItem(p);
    if item.Complete() || item.Broken() {
      items, rest := [item], y;
      assert items[1..] == [] && Spelled(p.tags, [], rest) == rest;
    } else {
      Shorter(p.tags, item, y);
      ReadItem(p, item, y);
      PassedReady(p, item, y);
      var more;
      more, rest := StanzaRead(Passed(p, item, y));
      items := [item] + more;
      assert items[1..] == more;
    }
  }

  /** agent_dsml_finish, seen from what is left. */
  lemma FinishIs(w: Glm)
    requires w.Valid() && !w.phase.Search?
    ensures var f := Finish(w);
            && f.calls == w.calls && f.error == w.error
            && (f.phase.Done? || f.phase.Error? <==> Ended(Rest(w)))
            && (f.phase.Error? <==> w.phase.Error?)
  {
    var q := SkipSpaces(w);
    var x := w.raw[w.parsePos..];
    assert forall k :: w.parsePos <= k < |w.raw| ==> w.raw[k] == x[k - w.parsePos];
    if Spaces(x) {
      SkipSpaceUnique(w.raw, w.parsePos, |w.raw|);
    } else {
      var k :| 0 <= k < |x| && !IsSpace(x[k]);
      assert !IsSpace(w.raw[w.parsePos + k]);
    }
  }

  lemma StartedReady(t: GlmTags, s: string)
    requires t.Shape()
    ensures var p := Rest(Started(t).Append(s));
            Ready(p) && At(p) == Naming && p.raw == s && p.tags == t && p.calls == [] && p.current == NO_CALL
  {
    hide GlmTags.Shape;
    RestIs(Started(t).Append(s));
  }

  /** A stanza decides the parse, finished. */
  lemma StanzaDecides(t: GlmTags, s: string, items: seq<Item>, rest: string)
    requires t.Shape() && Stanza(t, Naming, items, rest) && s == Spelled(t, items, rest)
    ensures var f := Finish(Parse(Started(t).Append(s)));
            && f.calls == CallsOf(items, NO_CALL) && items != []
            && (f.phase.Done? <==> items[|items| - 1].Complete())
            && (f.phase.Error? <==> items[|items| - 1].Broken())
            && (f.phase.Error? ==> f.error == items[|items| - 1].Why())
  {
    hide Stanza, Spelled, CallsOf, Parse, GlmTags.Shape, Rest, Finish;
    var p := Started(t).Append(s);
    StartedReady(t, s);
    ReadStanza(Rest(p), items, rest);
    ParseRest(p);
    ParsePhase(p);
    var w := Parse(p);
    FinishIs(w);
    assert [] + CallsOf(items, NO_CALL) == CallsOf(items, NO_CALL);
    MadeIs(Rest(Parse(Rest(p))), w, CallsOf(items, NO_CALL), items);
  }

  lemma MadeIs(r: Glm, w: Glm, calls: seq<Call>, items: seq<Item>)
    requires w.Valid() && r.Valid() && Rest(r) == Rest(w) && Makes(r, calls, items)
    ensures w.calls == calls && Makes(Rest(w), calls, items)
    ensures Ended(Rest(w)) && w.error == Rest(w).error && w.phase == Rest(w).phase
  {
    hide Rest;
    assert Rest(w) == w.(raw := Rest(w).raw, parsePos := 0);
    assert Rest(r) == r.(raw := Rest(r).raw, parsePos := 0);
    assert |Rest(r).raw| == |r.raw| - r.parsePos;
  }

  /**
   One parse of a text at the end of the message succeeds exactly when the text is a
   complete stanza, with the stanza's calls; it fails exactly when something in it has no
   place in a stanza, for that reason; in every other case the stanza is unfinished.
   */
  lemma ParsesStanzas(t: GlmTags, s: string, calls: seq<Call>, why: Reason)
    requires t.Shape()
    ensures var f := Finish(Parse(Started(t).Append(s)));
            && (f.phase.Done? && f.calls == calls <==> Accepts(t, s, calls))
            && (f.phase.Error? && f.error == why <==> Rejects(t, s, why))
  {
    hide Stanza, Spelled, CallsOf, Parse, GlmTags.Shape, Rest, Finish;
    var p := Started(t).Append(s);
    var f := Finish(Parse(p));
    if f.phase.Done? || f.phase.Error? {
      ParsePhase(p);
      FinishIs(Parse(p));
      StartedReady(t, s);
      ParseRest(p);
      EndedRest(Parse(Rest(p)), Parse(p));
      var items, rest := StanzaRead(Rest(p));
      StanzaDecides(t, s, items, rest);
    }
    forall items: seq<Item>, rest | Stanza(t, Naming, items, rest) && s == Spelled(t, items, rest)
      ensures items != [] && f.calls == CallsOf(items, NO_CALL)
      ensures f.phase.Done? <==> items[|items| - 1].Complete()
      ensures f.phase.Error? <==> items[|items| - 1].Broken()
      ensures f.phase.Error? ==> f.error == items[|items| - 1].Why()
    {
      StanzaDecides(t, s, items, rest);
    }
  }

  lemma EndedRest(r: Glm, w: Glm)
    requires r.Valid() && w.Valid() && Rest(r) == Rest(w)
    ensures Ended(Rest(w)) ==> Ended(Rest(r))
  {
  }

  lemma {:induction false} CompletedCall(t: GlmTags, at: Where, items: seq<Item>, rest: string, call: Call)
    requires Stanza(t, at, items, rest) && at != Behind && items[|items| - 1].Complete()
    ensures CallsOf(items, call) != []
    decreases |items|
  {
    hide Item.Fits;
    if !items[0].Close? {
      assert items[1..][|items| - 2] == items[|items| - 1];
      CompletedCall(t, items[0].Next(), items[1..], rest, CallBehind(items[0], call));
    }
  }

  /** A complete stanza has a call. */
  lemma CompleteHasCalls(t: GlmTags, s: string)
    ensures !Accepts(t, s, [])
  {
    hide Stanza, CallsOf, Spelled;
    forall items: seq<Item>, rest |
      Stanza(t, Naming, items, rest) && s == Spelled(t, items, rest) && items != [] && items[|items| - 1].Complete()
      ensures CallsOf(items, NO_CALL) != []
    {
      CompletedCall(t, Naming, items, rest, NO_CALL);
    }
    forall items: seq<Item>, rest ensures Stanza(t, Naming, items, rest) ==> items != [] {
      StanzaNotEmpty(t, Naming, items, rest);
    }
  }

  lemma StanzaNotEmpty(t: GlmTags, at: Where, items: seq<Item>, rest: string)
    ensures Stanza(t, at, items, rest) ==> items != []
  {
  }
}
