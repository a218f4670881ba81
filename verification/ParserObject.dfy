/**
 The DSML parser as the agent runs it: a struct updated in place, byte by byte.

 Every method is proved to compute the corresponding function of `ToolParser`, so the
 theorems about those functions are theorems about this object.
 */
module ParserObject {
  import opened Strings
  import opened ToolCalls
  import opened ToolParser
  import opened CloseDetector

  /** Longest tail the close-prefix detector looks at. */
  const CLOSE_TAIL := 64

  /** The last '<' of the value, if it is one of the last CLOSE_TAIL bytes. */
  ghost predicate IsValueTail(p: Parser, lt: int) {
    && p.paramValueStart <= lt < |p.raw| && p.raw[lt] == '<'
    && (forall k :: lt < k < |p.raw| ==> p.raw[k] != '<')
    && |p.raw| - lt <= CLOSE_TAIL
  }

  /** The bytes since the value's last '<' may still become the close tag. */
  ghost predicate ClosePrefix(p: Parser) {
    && p.phase.ParamValue?
    && exists lt :: IsValueTail(p, lt)
        && Extendable(p.raw[lt..], p.tags.closeParameter)
        && !IsCloseTag(p.raw[lt..], p.tags.closeParameter)
  }

  lemma NoClosePrefix(p: Parser)
    requires !p.phase.ParamValue?
    ensures !ClosePrefix(p)
  {
  }

  lemma NoValue(p: Parser)
    requires !p.phase.ParamValue? || |p.raw| <= p.paramValueStart
    ensures !ClosePrefix(p)
  {
    hide Extendable, IsCloseTag;
  }

  /** No '<' in the value, or only ones too far back. */
  lemma NoTail(p: Parser, lt: nat)
    requires p.paramValueStart <= lt < |p.raw| && (forall k :: lt < k < |p.raw| ==> p.raw[k] != '<')
    requires p.raw[lt] != '<' ==> lt == p.paramValueStart
    requires p.raw[lt] != '<' || |p.raw| - lt > CLOSE_TAIL
    ensures !ClosePrefix(p)
  {
    hide Extendable, IsCloseTag;
    forall k ensures !IsValueTail(p, k) {
      assert p.paramValueStart <= k < lt ==> p.raw[lt] == '<';
    }
  }

  /** There is one last '<'. */
  lemma OneTail(p: Parser, lt: nat)
    requires p.phase.ParamValue? && IsValueTail(p, lt)
    ensures ClosePrefix(p) <==> Extendable(p.raw[lt..], p.tags.closeParameter)
                                && !IsCloseTag(p.raw[lt..], p.tags.closeParameter)
  {
    hide Extendable, IsCloseTag;
    forall k | IsValueTail(p, k) ensures k == lt {
    }
  }

  class ToolCallParser {
    var state: Parser
    var paramClosePrefix: bool

    /** Between calls the flag says what it means. */
    ghost predicate Valid()
      reads this
    {
      state.Valid() && paramClosePrefix == ClosePrefix(state)
    }

    constructor (tags: Tags)
      requires tags.Shape()
      ensures Valid() && state == Fresh(tags)
    {
      state := Fresh(tags);
      paramClosePrefix := false;
    }

    /** agent_dsml_find_close_tag */
    static method FindClose(s: string, from: nat, prefix: string) returns (at: Option<nat>)
      ensures at == FindCloseTag(s, from, prefix)
    {
      var i := from;
      while i < |s|
        invariant from <= i
        invariant FindCloseTag(s, from, prefix) == FindCloseTag(s, i, prefix)
      {
        if CloseTagEnd(s, i, prefix) > 0 {
          return Some(i);
        }
        i := i + 1;
      }
      return None;
    }

    method SkipPass()
      requires state.Valid() && state.phase.Structural?
      modifies this`state
      ensures state == SkipSpaces(old(state))
    {
      var raw, pos := state.raw, state.parsePos;
      while pos < |raw| && IsSpace(raw[pos])
        invariant state.parsePos <= pos <= |raw|
        invariant SkipSpace(raw, state.parsePos) == SkipSpace(raw, pos)
      {
        pos := pos + 1;
      }
      state := state.(parsePos := pos);
    }

    /** One pass of the structural branch; `wait` when the loop has to return. */
    method StructuralPass() returns (wait: bool)
      requires state.Valid() && state.phase.Structural?
      modifies this`state
      ensures wait == Step(old(state)).Wait? && state == Step(old(state)).p
    {
      hide CloseTagEnd, FindChar, OpenTag, SkipSpaces, Push;
      SkipPass();
      var raw, pos := state.raw, state.parsePos;
      var endAll := CloseTagEnd(raw, pos, state.tags.closeToolCalls);
      var endInvoke := CloseTagEnd(raw, pos, state.tags.closeInvoke);
      wait := false;
      if pos >= |raw| {
        wait := true;
      } else if endAll > 0 {
        state := Push(state).(parsePos := endAll, phase := Done);
      } else if endInvoke > 0 {
        state := Push(state).(parsePos := endInvoke);
      } else {
        var gt := FindChar(raw, '>', pos);
        if gt.None? {
          wait := true;
        } else {
          state := OpenTag(state, gt.value + 1);
        }
      }
    }

    /** The parameter branch. */
    method ValuePass() returns (wait: bool)
      requires state.Valid() && state.phase.ParamValue?
      modifies this
      ensures wait == Step(old(state)).Wait? && state == Step(old(state)).p
    {
      var at := FindClose(state.raw, state.paramValueStart, state.tags.closeParameter);
      if at.None? {
        return true;
      }
      var name := if state.paramName.Some? then state.paramName.value else "";
      var value := state.raw[state.paramValueStart..at.value];
      var arg := Arg(name, value, state.paramIsString);
      paramClosePrefix := false;
      state := state.(current := state.current.(args := state.current.args + [arg]),
                      paramName := None,
                      parsePos := CloseTagEnd(state.raw, at.value, state.tags.closeParameter),
                      phase := Structural);
      return false;
    }

    /** agent_dsml_parse */
    method Parse()
      requires state.Valid()
      modifies this
      ensures state == ToolParser.Parse(old(state))
    {
      ghost var start := state;
      while state.Live()
        invariant state.Valid()
        invariant ToolParser.Parse(state) == ToolParser.Parse(start)
        decreases state.Live(), |state.raw| - state.parsePos
      {
        var wait;
        if state.phase.ParamValue? {
          wait := ValuePass();
        } else {
          wait := StructuralPass();
        }
        if wait {
          return;
        }
      }
    }

    /** agent_dsml_update_param_close_prefix */
    method UpdateClosePrefix()
      requires state.Valid()
      modifies this`paramClosePrefix
      ensures paramClosePrefix == ClosePrefix(state)
    {
      hide Extendable, IsCloseTag, ClosePrefix;
      paramClosePrefix := false;
      if !state.phase.ParamValue? || |state.raw| <= state.paramValueStart {
        NoValue(state);
        return;
      }
      var lt := |state.raw|;
      while lt > state.paramValueStart
        invariant state.paramValueStart <= lt <= |state.raw|
        invariant forall k :: lt <= k < |state.raw| ==> state.raw[k] != '<'
      {
        lt := lt - 1;
        if state.raw[lt] == '<' {
          break;
        }
      }
      if state.raw[lt] != '<' || |state.raw| - lt > CLOSE_TAIL {
        NoTail(state, lt);
        return;
      }
      var accept, complete := ParameterCloseTail(state.raw[lt..], state.tags.closeParameter);
      paramClosePrefix := accept && !complete;
      OneTail(state, lt);
    }

    /** agent_dsml_start, met when the search window ends in the start marker. */
    method SearchByte(c: char)
      requires state.Valid() && state.phase.Search?
      modifies this`state
      ensures state == ToolParser.SearchByte(old(state), c)
    {
      var tail := state.searchTail;
      if |tail| == SEARCH_TAIL {
        tail := tail[1..];
      }
      tail := tail + [c];
      state := state.(searchTail := tail);
      if OccursAt(tail, |tail| - |state.tags.start|, state.tags.start) {
        state := Start(state);
      }
    }

    /** agent_dsml_feed */
    method Feed(s: string)
      requires Valid()
      modifies this
      ensures Valid() && state == FeedCall(old(state), s)
    {
      hide ClosePrefix;
      if state.Terminal() {
        return;
      }
      for i := 0 to |s|
        invariant Valid()
        invariant ToolParser.Feed(state, s[i..]) == ToolParser.Feed(old(state), s)
      {
        var c := s[i];
        assert s[i..][0] == c && s[i..][1..] == s[i + 1..];
        if state.phase.Search? {
          NoClosePrefix(state);
          SearchByte(c);
          NoClosePrefix(state);
        } else {
          state := state.Append([c]);
          Parse();
          if state.phase.ParamValue? {
            UpdateClosePrefix();
          } else {
            paramClosePrefix := false;
            NoClosePrefix(state);
          }
        }
      }
    }
  }
}
