/**
 What the stream router makes of text that calls no tool: everything is shown, in order,
 but an ending that may still become a start form; a marker in it is found, outside
 thinking when it is shown and inside thinking when it is read; and a start form, however
 much looked like one before, is recognised when its last byte arrives.
 */
module RouterProse {
  import opened Strings
  import opened ToolCalls
  import opened ThinkTags
  import opened StreamRouter
  import DR = DsmlRoundTrip

  // ------------------------------------------------------------------------------------
  // Texts
  // ------------------------------------------------------------------------------------

  /** A text with a '<' at its beginning and nowhere else. */
  ghost predicate Angled(s: string) {
    s != "" && s[0] == '<' && forall k :: 1 <= k < |s| ==> s[k] != '<'
  }

  /** A start form of the vocabulary, by itself. */
  ghost predicate FormShape(v: Vocab, f: string) {
    && Angled(f) && 1 < |f| <= START_TAIL
    && (forall i :: 0 <= i < |f| ==> !IsSpace(f[i]))
    && DR.Differ(f, v.think.open) && DR.Differ(f, v.think.close)
  }

  /** A vocabulary whose forms, think tags and markers cannot be mistaken for one another. */
  ghost predicate Speaks(v: Vocab) {
    && v.Shape() && v.forms != []
    && (forall k :: 0 <= k < |v.forms| ==> FormShape(v, v.forms[k].text))
    && (forall j, k :: 0 <= j < |v.forms| && 0 <= k < |v.forms| && j != k ==> !(v.forms[j].text <= v.forms[k].text))
    && Angled(v.think.open) && Angled(v.think.close)
    && (forall k :: 0 <= k < |v.markers| ==> !IsSpace(v.markers[k][|v.markers[k]| - 1]))
  }

  ghost predicate FormFree(v: Vocab, s: string) {
    forall k :: 0 <= k < |v.forms| ==> Free(s, v.forms[k].text)
  }

  ghost predicate TagFree(v: Vocab, s: string) {
    Free(s, v.think.open) && Free(s, v.think.close)
  }

  /** Text that means nothing to the router. */
  ghost predicate Prose(v: Vocab, s: string) {
    NoMarker(s, v.markers) && FormFree(v, s) && TagFree(v, s)
  }

  /** `tail` may still become a start form. */
  ghost predicate Begins(v: Vocab, tail: string) {
    tail != "" && exists k :: 0 <= k < |v.forms| && tail <= v.forms[k].text
  }

  /** The ending of `s` that may still become a start form, or nothing. */
  ghost predicate IsHeld(v: Vocab, s: string, tail: string) {
    && |tail| <= |s| && s[|s| - |tail|..] == tail && (tail == "" || Begins(v, tail))
    && forall j :: 0 <= j < |s| && Begins(v, s[j..]) ==> |s| - j == |tail|
  }

  lemma FormFreePrefix(v: Vocab, s: string, n: nat)
    requires n <= |s| && FormFree(v, s)
    ensures FormFree(v, s[..n])
  {
    hide Free;
    forall k | 0 <= k < |v.forms| ensures Free(s[..n], v.forms[k].text) {
      FreePrefix(s, n, v.forms[k].text);
    }
  }

  lemma ProsePrefix(v: Vocab, s: string, n: nat)
    requires n <= |s| && Prose(v, s)
    ensures Prose(v, s[..n])
  {
    hide Free, NoMarker, FormFree;
    FormFreePrefix(v, s, n);
    NoMarkerPrefix(s, n, v.markers);
    FreePrefix(s, n, v.think.open);
    FreePrefix(s, n, v.think.close);
  }

  lemma BeginsAngled(v: Vocab, tail: string)
    requires Speaks(v) && Begins(v, tail)
    ensures Angled(tail) && |tail| <= START_TAIL
  {
    hide DR.Differ, Vocab.Shape;
    var k :| 0 <= k < |v.forms| && tail <= v.forms[k].text;
    assert FormShape(v, v.forms[k].text);
  }

  lemma BeginsPrefix(v: Vocab, tail: string, n: nat)
    requires 0 < n <= |tail| && Begins(v, tail)
    ensures Begins(v, tail[..n])
  {
    var k :| 0 <= k < |v.forms| && tail <= v.forms[k].text;
    assert tail[..n] <= v.forms[k].text;
  }

  lemma AngleBegins(v: Vocab)
    requires Speaks(v)
    ensures Begins(v, "<")
  {
    hide DR.Differ, Vocab.Shape;
    assert FormShape(v, v.forms[0].text);
    assert "<" <= v.forms[0].text;
  }

  /** The held ending after one more byte. */
  lemma HeldNext(v: Vocab, s: string, tail: string, c: char)
    requires Speaks(v) && IsHeld(v, s, tail)
    ensures tail == "" && c != '<' ==> IsHeld(v, s + [c], "")
    ensures tail == "" && c == '<' ==> IsHeld(v, s + [c], "<")
    ensures tail != "" && Begins(v, tail + [c]) ==> IsHeld(v, s + [c], tail + [c])
    ensures tail != "" && !Begins(v, tail + [c]) ==> IsHeld(v, s + [c], if c == '<' then "<" else "")
    ensures tail != "" && c == '<' ==> !Begins(v, tail + [c])
  {
    hide Speaks, Begins;
    var s' := s + [c];
    AngleBegins(v);
    forall j | 0 <= j < |s'| && Begins(v, s'[j..]) ensures s'[j..] == if j == |s| then [c] else tail + [c]
      ensures j == |s| ==> c == '<'
      ensures j < |s| ==> tail != "" && c != '<'
    {
      BeginsAngled(v, s'[j..]);
      if j < |s| {
        assert s'[j..] == s[j..] + [c] && s'[j..][..|s| - j] == s[j..];
        BeginsPrefix(v, s'[j..], |s| - j);
        assert s'[j..][|s| - j] == c;
      }
    }
    if tail != "" && Begins(v, tail + [c]) {
      BeginsAngled(v, tail + [c]);
      assert (tail + [c])[|tail|] == c;
    }
    assert s'[|s'| - |tail + [c]|..] == tail + [c];
    assert s'[|s'|..] == "" && s'[|s'| - 1..] == [c];
  }

  // ------------------------------------------------------------------------------------
  // The forms
  // ------------------------------------------------------------------------------------

  lemma {:induction false} MatchFirst(forms: seq<Form>, tail: string)
    ensures var m := MatchForm(forms, tail);
            && (m.Some? <==> exists k :: 0 <= k < |forms| && tail <= forms[k].text)
            && (m.Some? ==> m.value in forms && tail <= m.value.text)
    decreases |forms|
  {
    if forms != [] && !(tail <= forms[0].text) {
      MatchFirst(forms[1..], tail);
      if exists k :: 0 <= k < |forms| && tail <= forms[k].text {
        var k :| 0 <= k < |forms| && tail <= forms[k].text;
        assert forms[1..][k - 1] == forms[k];
      }
      if MatchForm(forms, tail).Some? {
        assert forms[1..] == forms[1..|forms|];
      }
    }
  }

  lemma MatchIs(v: Vocab, tail: string)
    requires tail != ""
    ensures MatchForm(v.forms, tail).Some? <==> Begins(v, tail)
  {
    MatchFirst(v.forms, tail);
  }

  lemma FormsApart(v: Vocab, j: nat, k: nat)
    requires Speaks(v) && j < |v.forms| && k < |v.forms|
    ensures v.forms[j].text <= v.forms[k].text ==> j == k
  {
  }

  /** A whole form is matched as itself. */
  lemma MatchWhole(v: Vocab, form: Form)
    requires Speaks(v) && form in v.forms
    ensures MatchForm(v.forms, form.text) == Some(form)
  {
    hide FormShape, Angled, Vocab.Shape;
    MatchFirst(v.forms, form.text);
    var j :| 0 <= j < |v.forms| && v.forms[j] == form;
    assert form.text <= v.forms[j].text;
    var m := MatchForm(v.forms, form.text).value;
    var k :| 0 <= k < |v.forms| && v.forms[k] == m;
    FormsApart(v, j, k);
  }

  /** A part of a form is not matched as a whole one. */
  lemma MatchPart(v: Vocab, form: Form, n: nat)
    requires Speaks(v) && form in v.forms && 0 < n < |form.text|
    ensures var m := MatchForm(v.forms, form.text[..n]);
            m.Some? && |m.value.text| != n
  {
    hide FormShape, Angled, Vocab.Shape;
    var tail := form.text[..n];
    MatchFirst(v.forms, tail);
    var j :| 0 <= j < |v.forms| && v.forms[j] == form;
    assert tail <= v.forms[j].text;
    var m := MatchForm(v.forms, tail).value;
    var k :| 0 <= k < |v.forms| && v.forms[k] == m;
    FormsApart(v, k, j);
    assert |m.text| == n ==> m.text == tail;
  }

  /** Text without forms does not end in one. */
  lemma NoFormEnds(v: Vocab, s: string, tail: string)
    requires FormFree(v, s) && |tail| <= |s| && s[|s| - |tail|..] == tail
    ensures forall k :: 0 <= k < |v.forms| ==> v.forms[k].text != tail
  {
    forall k | 0 <= k < |v.forms| ensures v.forms[k].text != tail {
      assert s[|s| - |tail|..|s|] == s[|s| - |tail|..];
      assert !OccursAt(s, |s| - |tail|, v.forms[k].text);
    }
  }

  // ------------------------------------------------------------------------------------
  // Shown bytes
  // ------------------------------------------------------------------------------------

  lemma MarkerEnd(s: string, markers: seq<string>)
    requires forall k :: 0 <= k < |markers| ==> 0 < |markers[k]| <= DETECTOR
    ensures NoMarker(s, markers) ==> !EndsInMarker(LastN(s, DETECTOR), markers)
  {
    hide OccursAt;
    var tail := LastN(s, DETECTOR);
    if NoMarker(s, markers) {
      forall k | 0 <= k < |markers| ensures !OccursAt(tail, |tail| - |markers[k]|, markers[k]) {
        LastNEnds(s, DETECTOR, markers[k]);
        assert !OccursAt(s, |s| - |markers[k]|, markers[k]);
      }
    }
  }

  /** The window ends in a marker exactly when the byte completed one. */
  lemma MarkerNow(s: string, c: char, markers: seq<string>)
    requires forall k :: 0 <= k < |markers| ==> 0 < |markers[k]| <= DETECTOR
    requires NoMarker(s, markers)
    ensures EndsInMarker(LastN(s + [c], DETECTOR), markers) <==> !NoMarker(s + [c], markers)
  {
    hide EndsInMarker, NoMarker, LastN;
    MarkerEnd(s + [c], markers);
    if !EndsInMarker(LastN(s + [c], DETECTOR), markers) {
      WindowSees(s, c, markers);
    }
  }

  /** Outside blocks, nothing found so far; `tool` is the untouched parser. */
  ghost predicate Idle(r: Router, v: Vocab, tool: Tool) {
    && r.vocab == v && v.Shape() && r.tool == tool && tool.Valid() && tool.Phase().Search?
    && !r.active && !r.ignored && !r.dsmlInThink && r.pending == ""
  }

  /** What a router looks like whose only change is a malformed marker. */
  ghost predicate Marred(q: Router, r: Router) {
    && r.tool.Valid() && q.tool == r.tool.Malformed() && q.vocab == r.vocab && q.inThink == r.inThink
    && q.active == r.active && q.dsmlInThink == r.dsmlInThink && q.pending == r.pending
    && q.startTail == r.startTail && q.postThinkGap == r.postThinkGap && q.ignored == r.ignored
  }

  /** A shown byte moves the window on, or completes a marker. */
  lemma ShowOne(r: Router, v: Vocab, tool: Tool, u: string, c: char)
    requires Idle(r, v, tool)
    requires !r.inThink ==> r.plainTail == LastN(u, DETECTOR) && NoMarker(u, v.markers)
    ensures r.Valid()
    ensures r.inThink ==> Show(r, c) == r.(shown := r.shown + [c])
    ensures !r.inThink && NoMarker(u + [c], v.markers) ==>
              Show(r, c) == r.(shown := r.shown + [c], plainTail := LastN(u + [c], DETECTOR))
    ensures !r.inThink && !NoMarker(u + [c], v.markers) ==> Marred(Show(r, c), r)
  {
    hide EndsInMarker, LastN, Window, NoMarker, Tool.Valid, Tool.Malformed;
    if !r.inThink {
      WindowPush(u, c);
      MarkerNow(u, c, v.markers);
    }
  }

  lemma MarredError(q: Router, r: Router)
    requires r.Valid() && Marred(q, r)
    ensures q.Valid() && q.tool.Phase().Error?
  {
  }

  /** Shown text moves the window on, unless it completes a marker. */
  lemma {:induction false} ShowText(r: Router, v: Vocab, tool: Tool, u: string, x: string)
    requires Idle(r, v, tool)
    requires !r.inThink ==> r.plainTail == LastN(u, DETECTOR) && NoMarker(u, v.markers)
    ensures r.Valid()
    ensures r.inThink ==> ShowAll(r, x) == r.(shown := r.shown + x)
    ensures !r.inThink && NoMarker(u + x, v.markers) ==>
              ShowAll(r, x) == r.(shown := r.shown + x, plainTail := LastN(u + x, DETECTOR))
    ensures !r.inThink && !NoMarker(u + x, v.markers) ==> Marred(ShowAll(r, x), r)
    decreases |x|
  {
    hide Show, LastN, NoMarker, Tool.Valid, Tool.Malformed, Vocab.Shape;
    if x == "" {
      assert u + x == u && r.shown + x == r.shown;
    } else {
      var u1 := u + [x[0]];
      ShowOne(r, v, tool, u, x[0]);
      var q := Show(r, x[0]);
      assert u1 + x[1..] == u + x && r.shown + [x[0]] + x[1..] == r.shown + x;
      assert (u + x)[..|u1|] == u1;
      if r.inThink || NoMarker(u1, v.markers) {
        ShowText(q, v, tool, u1, x[1..]);
      } else {
        MarredError(q, r);
        if NoMarker(u + x, v.markers) {
          NoMarkerPrefix(u + x, |u1|, v.markers);
        }
      }
    }
  }

  // ------------------------------------------------------------------------------------
  // Calm states
  // ------------------------------------------------------------------------------------

  /** The part of `s` that is not held. */
  function Passed(r: Router, s: string): string {
    if |r.startTail| <= |s| then s[..|s| - |r.startTail|] else ""
  }

  /** The router after text that called no tool; `before` was shown in front of it. */
  ghost predicate Calm(r: Router, v: Vocab, tool: Tool, before: string, s: string) {
    && Idle(r, v, tool) && !r.postThinkGap && IsHeld(v, s, r.startTail)
    && r.shown == before + Passed(r, s)
    && (r.inThink ==> r.thinkTail == LastN(s, DETECTOR) && r.plainTail == "" && NoMarker(s, v.markers))
    && (!r.inThink ==> r.plainTail == LastN(Passed(r, s), DETECTOR) && NoMarker(Passed(r, s), v.markers))
  }

  /** A marker was shown outside thinking: nothing that follows is looked at any more. */
  ghost predicate Broken(r: Router) {
    r.Valid() && r.tool.Phase().Error? && !r.active && !r.dsmlInThink && r.startTail == "" && r.pending == ""
  }

  /** Shown text with a held ending behind it is a calm state, or a broken one. */
  lemma ShownCalm(r: Router, v: Vocab, tool: Tool, before: string, u: string, x: string, tail: string)
    requires Idle(r, v, tool) && r.shown == before + u && IsHeld(v, u + x + tail, tail)
    requires r.inThink ==> r.thinkTail == LastN(u + x + tail, DETECTOR) && r.plainTail == ""
                           && NoMarker(u + x + tail, v.markers)
    requires !r.inThink ==> r.plainTail == LastN(u, DETECTOR) && NoMarker(u, v.markers)
    ensures var q := ShowAll(r.(postThinkGap := false), x);
            && q.inThink == r.inThink
            && (r.inThink || NoMarker(u + x, v.markers) ==>
                  !q.tool.Phase().Error? && Calm(q.(startTail := tail), v, tool, before, u + x + tail))
            && (!r.inThink && !NoMarker(u + x, v.markers) ==>
                  q.tool.Phase().Error? && Broken(q.(startTail := "")))
  {
    hide ShowAll, LastN, IsHeld, NoMarker, Tool.Valid, Vocab.Shape;
    var r1 := r.(postThinkGap := false);
    ShowText(r1, v, tool, u, x);
    var q := ShowAll(r1, x);
    assert (u + x + tail)[..|u + x|] == u + x;
    assert before + u + x == before + (u + x);
    if r.inThink || NoMarker(u + x, v.markers) {
      assert Passed(q.(startTail := tail), u + x + tail) == u + x;
    } else {
      MarredError(q, r1);
    }
  }

  /** NoteThinking on a byte that leaves the text without a marker, or completes one. */
  lemma NoteCalm(r: Router, v: Vocab, tool: Tool, s: string, c: char)
    requires Idle(r, v, tool)
    requires r.inThink ==> r.thinkTail == LastN(s, DETECTOR) && NoMarker(s, v.markers)
    ensures r.Valid()
    ensures var n := NoteThinking(r, c);
            && n == r.(thinkTail := n.thinkTail, thought := n.thought, dsmlInThink := n.dsmlInThink)
            && (r.inThink ==> n.thinkTail == LastN(s + [c], DETECTOR))
            && (n.dsmlInThink <==> r.inThink && !NoMarker(s + [c], v.markers))
  {
    hide LastN, Window, EndsInMarker, NoMarker, Tool.Valid;
    if r.inThink {
      WindowPush(s, c);
      MarkerNow(s, c, v.markers);
    }
  }

  /** The tail that no form begins with is shown, up to a '<' that may start over. */
  lemma UnmatchedCalm(r: Router, v: Vocab, tool: Tool, before: string, u: string, tail: string)
    requires Idle(r, v, tool) && r.shown == before + u && |tail| > 1
    requires IsHeld(v, u + tail, if tail[|tail| - 1] == '<' then "<" else "")
    requires r.inThink ==> r.thinkTail == LastN(u + tail, DETECTOR) && r.plainTail == ""
                           && NoMarker(u + tail, v.markers)
    requires !r.inThink ==> r.plainTail == LastN(u, DETECTOR) && NoMarker(u, v.markers)
    ensures r.Valid()
    ensures var q := Unmatched(r, tail);
            && q.inThink == r.inThink
            && (Calm(q, v, tool, before, u + tail)
                || (!r.inThink && Broken(q) && !NoMarker(u + tail, v.markers)))
  {
    hide ShowAll, LastN, IsHeld, NoMarker, Calm, Tool.Valid, Tool.Phase, Vocab.Shape;
    var last := |tail| - 1;
    if tail[last] == '<' {
      assert u + tail[..last] + "<" == u + tail;
      ShownCalm(r, v, tool, before, u, tail[..last], "<");
      if NoMarker(u + tail, v.markers) {
        assert (u + tail)[..|u| + last] == u + tail[..last];
        NoMarkerPrefix(u + tail, |u| + last, v.markers);
      }
    } else {
      assert u + tail + "" == u + tail;
      ShownCalm(r.(startTail := tail), v, tool, before, u, tail, "");
    }
  }

  // ------------------------------------------------------------------------------------
  // One byte
  // ------------------------------------------------------------------------------------

  /** The text so far, seen through the detector: `u` passed, `held` held. */
  ghost predicate Watching(r: Router, v: Vocab, tool: Tool, before: string, u: string, s: string) {
    && Idle(r, v, tool) && !r.postThinkGap && r.shown == before + u
    && (r.inThink ==> r.thinkTail == LastN(s, DETECTOR) && r.plainTail == "" && NoMarker(s, v.markers))
    && (!r.inThink ==> r.plainTail == LastN(u, DETECTOR) && NoMarker(u, v.markers))
  }

  /** The detector on a byte that completes no form. */
  lemma DetectorCalm(r: Router, v: Vocab, tool: Tool, before: string, u: string, c: char)
    requires Speaks(v) && Watching(r, v, tool, before, u, u + r.startTail + [c])
    requires IsHeld(v, u + r.startTail, r.startTail) && (r.startTail != "" || c == '<')
    requires FormFree(v, u + r.startTail + [c])
    ensures r.Valid()
    ensures var q := DetectorByte(r, c);
            && q.inThink == r.inThink
            && (Calm(q, v, tool, before, u + r.startTail + [c])
                || (!r.inThink && Broken(q) && !NoMarker(u + r.startTail + [c], v.markers)))
  {
    hide LastN, MatchForm, NoMarker, Unmatched, StartBlock, Tool.Valid, Vocab.Shape, Speaks, FormFree, IsHeld, Begins;
    var held := r.startTail;
    var s, tail := u + held + [c], held + [c];
    assert s == u + tail && s[|u|..] == tail;
    HeldShort(v, u + held, held, s);
    HeldNext(v, u + held, held, c);
    MatchIs(v, tail);
    AngleBegins(v);
    NoFormEnds(v, s, tail);
    if Begins(v, tail) {
      MatchFirst(v.forms, tail);
      HeldCalm(r, v, tool, before, u, s, tail);
    } else {
      assert held != "";
      UnmatchedCalm(r, v, tool, before, u, tail);
    }
  }

  /** Holding one more byte. */
  lemma HeldCalm(r: Router, v: Vocab, tool: Tool, before: string, u: string, s: string, tail: string)
    requires Watching(r, v, tool, before, u, s) && s == u + tail && IsHeld(v, s, tail)
    ensures Calm(r.(startTail := tail), v, tool, before, s)
  {
    hide LastN, NoMarker, IsHeld, Tool.Valid, Vocab.Shape;
    assert Passed(r.(startTail := tail), s) == u;
  }

  /** A held ending leaves room for a byte: it is no whole form. */
  lemma HeldShort(v: Vocab, s: string, held: string, more: string)
    requires Speaks(v) && IsHeld(v, s, held) && FormFree(v, more) && s <= more
    ensures |held| < START_TAIL
  {
    hide DR.Differ, Vocab.Shape;
    if held != "" {
      FormFreePrefix(v, more, |s|);
      assert more[..|s|] == s;
      NoFormEnds(v, s, held);
      var k :| 0 <= k < |v.forms| && held <= v.forms[k].text;
      assert FormShape(v, v.forms[k].text);
    }
  }

  /** A byte that completes no form: the state stays calm, or a marker is found. */
  lemma CalmByte(r: Router, v: Vocab, tool: Tool, before: string, s: string, c: char)
    requires Speaks(v) && Calm(r, v, tool, before, s) && FormFree(v, s + [c])
    ensures r.Valid() && PlainByte(r, c).Valid()
    ensures var q := PlainByte(r, c);
            || (Calm(q, v, tool, before, s + [c]) && q.inThink == r.inThink)
            || (!NoMarker(s + [c], v.markers) && if r.inThink then q.dsmlInThink else Broken(q))
  {
    hide LastN, NoMarker, NoteThinking, DetectorByte, Show, Speaks, FormFree, IsHeld, Tool.Valid, Vocab.Shape;
    var u := Passed(r, s);
    assert s == u + r.startTail by { HeldEnds(v, s, r.startTail); }
    NoteCalm(r, v, tool, s, c);
    var n := NoteThinking(r, c);
    if r.inThink && !NoMarker(s + [c], v.markers) {
      MarkedByte(n, c);
    } else if n.startTail != "" || c == '<' {
      DetectorCalm(n, v, tool, before, u, c);
    } else {
      assert u + "" == u;
      ShownByte(n, v, tool, before, u, c);
    }
  }

  lemma HeldEnds(v: Vocab, s: string, tail: string)
    requires IsHeld(v, s, tail)
    ensures |tail| <= |s| && s == s[..|s| - |tail|] + tail
  {
  }

  /** A byte that is shown at once. */
  lemma ShownByte(r: Router, v: Vocab, tool: Tool, before: string, u: string, c: char)
    requires Speaks(v) && Watching(r, v, tool, before, u, u + [c]) && IsHeld(v, u, "") && r.startTail == "" && c != '<'
    ensures r.Valid()
    ensures var q := Show(r.(postThinkGap := false), c);
            && q.inThink == r.inThink
            && (Calm(q, v, tool, before, u + [c])
                || (!r.inThink && Broken(q) && !NoMarker(u + [c], v.markers)))
  {
    hide LastN, NoMarker, Show, Speaks, IsHeld, Tool.Valid, Vocab.Shape;
    var r1 := r.(postThinkGap := false);
    ShowOne(r1, v, tool, u, c);
    HeldNext(v, u, "", c);
    var q := Show(r1, c);
    assert before + u + [c] == before + (u + [c]);
    if r.inThink || NoMarker(u + [c], v.markers) {
      assert Passed(q, u + [c]) == u + [c];
    } else {
      MarredError(q, r1);
    }
  }

  /** What is detected in thinking stays detected. */
  lemma MarkedByte(r: Router, c: char)
    requires r.Valid() && r.dsmlInThink && !r.active && !r.tool.Phase().Error?
    ensures if r.postThinkGap && IsSpace(c) then r.dsmlInThink
            else if r.startTail != "" || c == '<' then DetectorByte(r, c).dsmlInThink
            else Show(r.(postThinkGap := false), c).dsmlInThink
  {
    hide ShowAll, BlockBytes, MatchForm, Tool.Valid, Vocab.Shape, Tool.Phase, EndsInMarker;
    var tail := if |r.startTail| < START_TAIL then r.startTail + [c] else r.startTail;
    if r.startTail != "" || c == '<' {
      UnmatchedSame(r, tail);
      StartMarked(r);
    } else {
      ShowSame(r.(postThinkGap := false), c);
    }
  }

  lemma {:induction false} BlockMarked(r: Router, s: string)
    requires r.Valid() && r.dsmlInThink
    ensures BlockBytes(r, s).dsmlInThink
    decreases |s|
  {
    hide Tool.Valid, Vocab.Shape, Tool.FeedByte;
    if s != "" {
      BlockMarked(BlockByte(r, s[0]), s[1..]);
    }
  }

  lemma StartMarked(r: Router)
    requires r.Valid() && (r.dsmlInThink || r.inThink)
    ensures forall implicit :: StartBlock(r, implicit).dsmlInThink
  {
    hide BlockBytes, Tool.Valid, Vocab.Shape;
    var q := r.(active := true, ignored := r.inThink, dsmlInThink := r.dsmlInThink || r.inThink,
                startTail := "", postThinkGap := false, tool := r.tool.Start(),
                opens := r.opens + [r.inThink]);
    BlockMarked(q, r.vocab.invoke);
  }

  /** The parser of a block that a form opened. */
  function Opened(v: Vocab, tool: Tool, form: Form): (t: Tool)
    requires tool.Valid()
    ensures t.Valid()
  {
    if tool.Dsml? && form.implicitInvoke then Fed(tool.Start(), v.invoke) else tool.Start()
  }

  /** The parser fed byte by byte, as a block feeds it. */
  function Fed(t: Tool, s: string): (r: Tool)
    requires t.Valid()
    ensures r.Valid()
    decreases |s|
  {
    if s == "" then t else Fed(t.FeedByte(s[0]), s[1..])
  }

  /** A parser that has ended stays as it is. */
  lemma {:induction false} FedEnded(t: Tool, s: string)
    requires t.Valid() && !t.Live()
    ensures Fed(t, s) == t
    decreases |s|
  {
    hide Tool.Valid;
    if s != "" {
      FedEnded(t, s[1..]);
    }
  }

  /** Inside a block that was opened outside thinking. */
  ghost predicate InStanza(r: Router, v: Vocab, tool: Tool, shown: string) {
    && r.vocab == v && v.Shape() && r.tool == tool && tool.Valid() && r.shown == shown
    && r.active && !r.ignored && !r.inThink && !r.dsmlInThink
    && r.startTail == "" && r.pending == "" && !r.postThinkGap
  }

  /** The implied opener, fed to the parser. */
  lemma {:induction false} BlockFed(r: Router, v: Vocab, tool: Tool, shown: string, s: string)
    requires InStanza(r, v, tool, shown) && Fed(tool, s).Live()
    ensures r.Valid() && InStanza(BlockBytes(r, s), v, Fed(tool, s), shown)
    decreases |s|
  {
    hide Tool.Valid, Tool.FeedByte, Vocab.Shape;
    if s != "" {
      var t1 := tool.FeedByte(s[0]);
      if !t1.Live() {
        FedEnded(t1, s[1..]);
      }
      BlockFed(BlockByte(r, s[0]), v, t1, shown, s[1..]);
    }
  }

  lemma StartKind(t: Tool)
    requires t.Valid()
    ensures t.Start().Dsml? <==> t.Dsml?
  {
  }

  /** The block a whole form opens. */
  lemma StartOpens(r: Router, v: Vocab, tool: Tool, form: Form)
    requires r.vocab == v && v.Shape() && r.tool == tool && tool.Valid() && r.pending == ""
    requires !r.inThink && !r.dsmlInThink && Opened(v, tool, form).Live()
    ensures r.Valid() && InStanza(StartBlock(r, form.implicitInvoke), v, Opened(v, tool, form), r.shown)
  {
    hide BlockBytes, Tool.Valid, Tool.Start, Vocab.Shape, Fed;
    var q := r.(active := true, ignored := r.inThink, dsmlInThink := r.dsmlInThink || r.inThink,
                startTail := "", postThinkGap := false, tool := r.tool.Start(),
                opens := r.opens + [r.inThink]);
    StartKind(tool);
    if tool.Dsml? && form.implicitInvoke {
      BlockFed(q, v, tool.Start(), r.shown, v.invoke);
    }
  }

  /** A byte that completes a form in thinking is detected there. */
  lemma FormInThinking(r: Router, v: Vocab, tool: Tool, before: string, s: string, c: char, form: Form)
    requires Speaks(v) && Calm(r, v, tool, before, s) && r.inThink && FormFree(v, s)
    requires form in v.forms && OccursAt(s + [c], |s + [c]| - |form.text|, form.text)
    ensures r.Valid() && PlainByte(r, c).Valid() && PlainByte(r, c).dsmlInThink
  {
    hide LastN, NoMarker, NoteThinking, StartBlock, Speaks, FormFree, Tool.Valid, Vocab.Shape, IsHeld, MatchForm;
    NoteCalm(r, v, tool, s, c);
    HeldForm(v, s, r.startTail, c, form);
    HeldShort(v, s, r.startTail, s);
    MatchWhole(v, form);
    StartMarked(NoteThinking(r, c));
  }

  /** When a form is completed, all of it but the last byte was held. */
  lemma HeldForm(v: Vocab, s: string, held: string, c: char, form: Form)
    requires Speaks(v) && IsHeld(v, s, held) && form in v.forms
    requires OccursAt(s + [c], |s + [c]| - |form.text|, form.text)
    ensures held != "" && held + [c] == form.text
  {
    hide DR.Differ, Vocab.Shape;
    var k :| 0 <= k < |v.forms| && v.forms[k] == form;
    assert FormShape(v, v.forms[k].text);
    LastByte(s, c, form.text);
    assert s[|s| + 1 - |form.text|..] <= v.forms[k].text;
  }

  lemma LastByte(s: string, c: char, f: string)
    requires f != "" && OccursAt(s + [c], |s + [c]| - |f|, f)
    ensures |f| <= |s| + 1 && f == s[|s| + 1 - |f|..] + [c]
  {
    var j := |s| + 1 - |f|;
    assert f == (s + [c])[j..|s| + 1];
  }

  // ------------------------------------------------------------------------------------
  // Texts of any length
  // ------------------------------------------------------------------------------------

  /** No think tag starts at the beginning of `buf`, nor may one still. */
  ghost predicate NoTag(v: Vocab, buf: string, finish: bool) {
    !(v.think.open <= buf) && !(v.think.close <= buf) && (!finish ==> !HoldBack(v.think, buf))
  }

  lemma PlainMove(r: Router, buf: string, finish: bool)
    requires r.Valid() && buf != "" && (r.active || NoTag(r.vocab, buf, finish))
    ensures PlainByte(r, buf[0]).Valid() && PlainByte(r, buf[0]).vocab == r.vocab
    ensures Run(r, buf, finish) == Run(PlainByte(r, buf[0]), buf[1..], finish)
  {
    hide PlainByte, OpenThink, CloseThink, HoldBack, Router.Valid;
  }

  /** A marker was found: outside thinking the parser failed, in thinking it is on record. */
  ghost predicate Found(r: Router) {
    r.Valid() && (r.dsmlInThink || Broken(r))
  }

  /**
   Text without forms and think tags: the router stays calm to its end, or finds a marker
   after its first `n` bytes.
   */
  lemma {:induction false} CalmRun(r: Router, v: Vocab, tool: Tool, before: string, s: string, x: string,
                                   rest: string, finish: bool) returns (q: Router, n: nat)
    requires Speaks(v) && Calm(r, v, tool, before, s) && FormFree(v, s + x)
    requires forall i :: 0 <= i < |x| ==> NoTag(v, (x + rest)[i..], finish)
    ensures n <= |x| && r.Valid() && q.Valid()
    ensures Run(r, x + rest, finish) == Run(q, (x + rest)[n..], finish)
    ensures || (n == |x| && Calm(q, v, tool, before, s + x) && q.inThink == r.inThink)
            || (Found(q) && !NoMarker(s + x, v.markers) && (q.dsmlInThink <==> r.inThink))
    decreases |x|
  {
    hide Calm, NoMarker, NoTag, FormFree, Speaks, Run, PlainByte, Broken, Tool.Valid, Vocab.Shape;
    CalmValid(r, v, tool, before, s);
    if x == "" {
      q, n := r, 0;
      assert s + x == s && (x + rest)[0..] == x + rest;
    } else {
      var s1 := s + [x[0]];
      assert s1 + x[1..] == s + x && (s + x)[..|s1|] == s1;
      FormFreePrefix(v, s + x, |s1|);
      assert NoTag(v, (x + rest)[0..], finish) && (x + rest)[0..] == x + rest;
      PlainMove(r, x + rest, finish);
      CalmByte(r, v, tool, before, s, x[0]);
      var r1 := PlainByte(r, x[0]);
      assert (x + rest)[1..] == x[1..] + rest;
      if Calm(r1, v, tool, before, s1) && r1.inThink == r.inThink {
        forall i | 0 <= i < |x[1..]| ensures NoTag(v, (x[1..] + rest)[i..], finish) {
          assert (x[1..] + rest)[i..] == (x + rest)[i + 1..];
        }
        var m;
        q, m := CalmRun(r1, v, tool, before, s1, x[1..], rest, finish);
        n := m + 1;
        assert (x[1..] + rest)[m..] == (x + rest)[n..];
      } else {
        q, n := r1, 1;
        BrokenOutside(r1);
        if NoMarker(s + x, v.markers) {
          NoMarkerPrefix(s + x, |s1|, v.markers);
        }
      }
    }
  }

  lemma BrokenOutside(r: Router)
    ensures Broken(r) ==> !r.dsmlInThink && r.Valid()
  {
  }

  lemma CalmValid(r: Router, v: Vocab, tool: Tool, before: string, s: string)
    requires Calm(r, v, tool, before, s)
    ensures r.Valid() && r.vocab == v && !r.active && Idle(r, v, tool)
  {
  }

  /** No think tag begins where text without one is followed by a '<'. */
  lemma NoTagBefore(v: Vocab, s: string, x: string, rest: string, finish: bool)
    requires Angled(v.think.open) && Angled(v.think.close) && TagFree(v, s + x) && x != ""
    requires (rest == "" && finish) || (rest != "" && rest[0] == '<')
    ensures NoTag(v, x + rest, finish)
  {
    NoTagOf(v.think.open, s, x, rest);
    NoTagOf(v.think.close, s, x, rest);
  }

  lemma NoTagOf(tag: string, s: string, x: string, rest: string)
    requires Angled(tag) && Free(s + x, tag) && x != "" && (rest == "" || rest[0] == '<')
    ensures !(tag <= x + rest)
    ensures rest != "" ==> !(x + rest < tag)
  {
    assert rest != "" ==> (x + rest)[|x|] == '<';
    if |tag| <= |x| {
      assert !OccursAt(s + x, |s|, tag);
      assert (s + x)[|s|..|s| + |tag|] == x[..|tag|];
      assert (x + rest)[..|tag|] == x[..|tag|];
    }
  }

  lemma NoTags(v: Vocab, s: string, x: string, rest: string, finish: bool)
    requires Angled(v.think.open) && Angled(v.think.close) && TagFree(v, s + x)
    requires (rest == "" && finish) || (rest != "" && rest[0] == '<')
    ensures forall i :: 0 <= i < |x| ==> NoTag(v, (x + rest)[i..], finish)
  {
    hide TagFree, NoTag, Angled;
    forall i | 0 <= i < |x| ensures NoTag(v, (x + rest)[i..], finish) {
      assert (s + x[..i]) + x[i..] == s + x && (x + rest)[i..] == x[i..] + rest;
      NoTagBefore(v, s + x[..i], x[i..], rest, finish);
    }
  }

  // ---- what stays found ----------------------------------------------------------------

  lemma {:induction false} BrokenRun(r: Router, s: string)
    requires Broken(r)
    ensures Broken(Run(r, s, true))
    decreases |s|
  {
    hide Tool.Valid, Vocab.Shape, Tool.Phase;
    if s != "" {
      match NextMove(r, s, true)
      case Eat(n, q) =>
        assert Broken(q);
        BrokenRun(q, s[n..]);
    }
  }

  lemma FlushMarked(r: Router)
    requires r.Valid() && r.dsmlInThink
    ensures FlushStartTail(r).dsmlInThink
  {
    hide ShowAll, Tool.Valid, Vocab.Shape;
    FlushSame(r);
  }

  /** Every byte and every think tag keeps what was detected in thinking. */
  lemma MoveMarked(r: Router, buf: string, finish: bool)
    requires r.Valid() && r.dsmlInThink && buf != "" && NextMove(r, buf, finish).Eat?
    ensures NextMove(r, buf, finish).q.dsmlInThink
  {
    hide FlushStartTail, DetectorByte, Show, Tool.Valid, Vocab.Shape, Tool.FeedByte, Tool.Phase, HoldBack;
    FlushMarked(r);
    if !r.active && !r.tool.Phase().Error? {
      MarkedByte(r, buf[0]);
    }
  }

  lemma {:induction false} MarkedRun(r: Router, s: string, finish: bool)
    requires r.Valid() && r.dsmlInThink
    ensures Run(r, s, finish).dsmlInThink
    decreases |s|
  {
    hide NextMove, Router.Valid;
    if s != "" {
      match NextMove(r, s, finish)
      case Hold =>
      case Eat(n, q) =>
        MoveMarked(r, s, finish);
        MarkedRun(q, s[n..], finish);
    }
  }

  /** Nothing found is ever lost again. */
  lemma FoundRun(r: Router, s: string)
    requires Found(r)
    ensures Found(Run(r, s, true))
  {
    hide Run, Broken;
    if r.dsmlInThink {
      MarkedRun(r, s, true);
    } else {
      BrokenRun(r, s);
      BrokenOutside(Run(r, s, true));
    }
  }
}
