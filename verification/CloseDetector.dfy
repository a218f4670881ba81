/**
 The online close-tag detector.

 While a parameter value streams in, the agent decides from the bytes since the last '<'
 whether they may still become the parameter's close tag.  The detector is proved to
 answer exactly that question about the parser's own close-tag matcher.
 */
module CloseDetector {
  import opened Strings
  import opened ToolParser

  /** `u` is one whole close tag. */
  ghost predicate IsCloseTag(u: string, prefix: string) {
    u != "" && CloseTagEnd(u, 0, prefix) == |u|
  }

  /** Some continuation makes `tail` a close tag. */
  ghost predicate Extendable(tail: string, prefix: string) {
    exists x :: IsCloseTag(tail + x, prefix)
  }

  lemma ExtendBy(tail: string, x: string, prefix: string)
    requires IsCloseTag(tail + x, prefix)
    ensures Extendable(tail, prefix)
  {
  }

  /** The three parts after the prefix, at offsets that fit together, make a close tag. */
  lemma ClosesFrom(s: string, prefix: string, a: nat, b: nat)
    requires OccursAt(s, 0, prefix) && |prefix| <= a <= b < |s|
    requires SkipSpace(s, |prefix|) == a && SkipBar(s, a) == b && SkipSpace(s, b) == |s| - 1
    requires s[|s| - 1] == '>'
    ensures IsCloseTag(s, prefix)
  {
  }

  /** Cut short inside the prefix. */
  lemma InPrefix(tail: string, prefix: string)
    requires |tail| <= |prefix|
    ensures Extendable(tail, prefix) <==> tail == prefix[..|tail|]
  {
    if tail == prefix[..|tail|] {
      var x := prefix[|tail|..] + ">";
      var s := tail + x;
      assert s == prefix + ">";
      assert s[0..0 + |prefix|] == prefix;
      SkipSpaceUnique(s, |prefix|, |prefix|);
      Mismatch(s, |prefix|, BAR, 0);
      ClosesFrom(s, prefix, |prefix|, |prefix|);
      ExtendBy(tail, x, prefix);
    } else {
      forall x ensures !IsCloseTag(tail + x, prefix) {
        WrongStart(tail, x, prefix);
      }
    }
  }

  lemma WrongStart(tail: string, x: string, prefix: string)
    requires |tail| <= |prefix| && tail != prefix[..|tail|]
    ensures !IsCloseTag(tail + x, prefix)
  {
    var s := tail + x;
    var k :| 0 <= k < |tail| && tail[k] != prefix[..|tail|][k];
    assert s[k] == tail[k];
    Mismatch(s, 0, prefix, k);
  }

  /** Longer than the prefix but not starting with it. */
  lemma NotPrefixed(tail: string, prefix: string)
    requires |tail| > |prefix| && !OccursAt(tail, 0, prefix)
    ensures !Extendable(tail, prefix)
  {
    forall x ensures !IsCloseTag(tail + x, prefix) {
      OccursAtExtend(tail, x, 0, prefix);
    }
  }

  /** Cut short inside the spaces before the optional bar, or exactly at the bar. */
  lemma InFirstSpaces(tail: string, prefix: string)
    requires OccursAt(tail, 0, prefix) && SkipSpace(tail, |prefix|) == |tail|
    ensures Extendable(tail, prefix)
  {
    var s := tail + ">";
    OccursAtExtend(tail, ">", 0, prefix);
    SkipSpaceExtend(tail, ">", |prefix|);
    SkipSpaceUnique(s, |prefix|, |tail|);
    Mismatch(s, |tail|, BAR, 0);
    SkipSpaceUnique(s, |tail|, |tail|);
    ClosesFrom(s, prefix, |tail|, |tail|);
    ExtendBy(tail, ">", prefix);
  }

  /** Cut short inside the optional bar. */
  lemma InBar(tail: string, prefix: string, i: nat)
    requires OccursAt(tail, 0, prefix) && SkipSpace(tail, |prefix|) == i < |tail|
    requires |tail| - i <= |BAR| && tail[i..] == BAR[..|tail| - i]
    ensures Extendable(tail, prefix)
  {
    var x := BAR[|tail| - i..] + ">";
    var s := tail + x;
    OccursAtExtend(tail, x, 0, prefix);
    SkipSpaceExtend(tail, x, |prefix|);
    assert s[i..i + |BAR|] == BAR by {
      assert s == tail[..i] + (tail[i..] + x);
      assert tail[i..] + x == BAR + ">";
    }
    SkipSpaceUnique(s, i + |BAR|, i + |BAR|);
    ClosesFrom(s, prefix, i, i + |BAR|);
    ExtendBy(tail, x, prefix);
  }

  /** Where the second run of spaces starts is settled once the bar is decided. */
  ghost predicate BarDecided(tail: string, i: nat) {
    i < |tail| && (i + |BAR| <= |tail| || tail[i..] != BAR[..|tail| - i])
  }

  lemma BarStays(tail: string, x: string, i: nat)
    requires BarDecided(tail, i)
    ensures SkipBar(tail + x, i) == SkipBar(tail, i)
  {
    OccursAtExtend(tail, x, i, BAR);
    var s := tail + x;
    if i + |BAR| > |tail| {
      var k :| 0 <= k < |tail| - i && tail[i..][k] != BAR[..|tail| - i][k];
      assert s[i + k] == tail[i..][k];
      Mismatch(s, i, BAR, k);
    }
  }

  /** After the bar: extendable exactly while only spaces, or spaces and a final '>', follow. */
  lemma AfterBar(tail: string, prefix: string, i: nat, b: nat)
    requires OccursAt(tail, 0, prefix) && SkipSpace(tail, |prefix|) == i
    requires BarDecided(tail, i) && b == SkipBar(tail, i)
    ensures var c := SkipSpace(tail, b);
            && (IsCloseTag(tail, prefix) <==> c == |tail| - 1 && tail[c] == '>')
            && (Extendable(tail, prefix) <==> c == |tail| || (c == |tail| - 1 && tail[c] == '>'))
  {
    var c := SkipSpace(tail, b);
    if c == |tail| {
      OpenEnded(tail, prefix, i, b);
    } else if c == |tail| - 1 && tail[c] == '>' {
      assert tail + "" == tail;
      ClosesFrom(tail, prefix, i, b);
      ExtendBy(tail, "", prefix);
    } else {
      forall x ensures !IsCloseTag(tail + x, prefix) {
        OccursAtExtend(tail, x, 0, prefix);
        SkipSpaceExtend(tail, x, |prefix|);
        BarStays(tail, x, i);
        SkipSpaceExtend(tail, x, b);
        assert (tail + x)[c] == tail[c];
      }
    }
  }

  lemma OpenEnded(tail: string, prefix: string, i: nat, b: nat)
    requires OccursAt(tail, 0, prefix) && SkipSpace(tail, |prefix|) == i
    requires BarDecided(tail, i) && b == SkipBar(tail, i) && SkipSpace(tail, b) == |tail|
    ensures Extendable(tail, prefix)
  {
    var s := tail + ">";
    OccursAtExtend(tail, ">", 0, prefix);
    SkipSpaceExtend(tail, ">", |prefix|);
    BarStays(tail, ">", i);
    SkipSpaceExtend(tail, ">", b);
    SkipSpaceUnique(s, b, |tail|);
    ClosesFrom(s, prefix, i, b);
    ExtendBy(tail, ">", prefix);
  }

  /**
   agent_dsml_parameter_close_tail: `accept` says that the tail may still become a close
   tag, `complete` that it is one.
   */
  method ParameterCloseTail(tail: string, prefix: string) returns (accept: bool, complete: bool)
    ensures accept <==> Extendable(tail, prefix)
    ensures complete <==> IsCloseTag(tail, prefix)
  {
    complete := false;
    if |tail| <= |prefix| {
      InPrefix(tail, prefix);
      return tail == prefix[..|tail|], false;
    }
    if tail[..|prefix|] != prefix {
      NotPrefixed(tail, prefix);
      return false, false;
    }
    assert tail[0..0 + |prefix|] == tail[..|prefix|];
    var i := |prefix|;
    while i < |tail| && IsSpace(tail[i])
      invariant |prefix| <= i <= |tail|
      invariant SkipSpace(tail, |prefix|) == SkipSpace(tail, i)
    {
      i := i + 1;
    }
    if i == |tail| {
      InFirstSpaces(tail, prefix);
      return true, false;
    }
    if |tail| - i <= |BAR| && BAR[..|tail| - i] == tail[i..] {
      InBar(tail, prefix, i);
      NoBareBar(tail, prefix, i);
      return true, false;
    }
    ghost var first := i;
    if i + |BAR| <= |tail| && tail[i..i + |BAR|] == BAR {
      i := i + |BAR|;
    }
    ghost var b := i;
    AfterBar(tail, prefix, first, b);
    while i < |tail|
      invariant b <= i <= |tail|
      invariant SkipSpace(tail, b) == SkipSpace(tail, i)
    {
      if tail[i] == '>' {
        complete := i == |tail| - 1;
        return complete, complete;
      }
      if !IsSpace(tail[i]) {
        return false, false;
      }
      i := i + 1;
    }
    return true, false;
  }

  /** A tail that ends inside the bar is not yet a tag. */
  lemma NoBareBar(tail: string, prefix: string, i: nat)
    requires OccursAt(tail, 0, prefix) && SkipSpace(tail, |prefix|) == i < |tail|
    requires |tail| - i <= |BAR| && tail[i..] == BAR[..|tail| - i]
    ensures !IsCloseTag(tail, prefix)
  {
    assert tail[|tail| - 1] == tail[i..][|tail| - i - 1] == BAR[|tail| - i - 1];
  }

  // ------------------------------------------------------------------------------------
  // The first tag to be completed is the first tag
  // ------------------------------------------------------------------------------------

  /** Close tags do not overlap, so they end in the order in which they start. */
  lemma TagsInOrder(s: string, i: nat, j: nat, prefix: string)
    requires ClosePrefixShape(prefix)
    requires CloseTagEnd(s, i, prefix) > 0 && CloseTagEnd(s, j, prefix) > 0
    ensures i < j ==> CloseTagEnd(s, i, prefix) <= j
    ensures i < j <==> CloseTagEnd(s, i, prefix) < CloseTagEnd(s, j, prefix)
  {
    hide CloseTagEnd;
    CloseTagBytes(s, i, prefix);
    CloseTagBytes(s, j, prefix);
  }

  /** The tag that ends first is the tag that starts first. */
  lemma FirstByEndIsFirst(s: string, i: nat, prefix: string, r: nat)
    requires ClosePrefixShape(prefix) && i <= r && CloseTagEnd(s, r, prefix) > 0
    ensures FindCloseTag(s, i, prefix) == Some(r)
            <==> forall k :: i <= k && CloseTagEnd(s, k, prefix) > 0
                   ==> CloseTagEnd(s, r, prefix) <= CloseTagEnd(s, k, prefix)
  {
    hide CloseTagEnd;
    forall k | i <= k && CloseTagEnd(s, k, prefix) > 0
      ensures CloseTagEnd(s, r, prefix) <= CloseTagEnd(s, k, prefix) <==> r <= k
    {
      TagsInOrder(s, k, r, prefix);
    }
    if forall k :: i <= k && CloseTagEnd(s, k, prefix) > 0 ==> r <= k {
      FindCloseTagUnique(s, i, prefix, r);
    }
  }

  /**
   Reading byte by byte, no tag is complete before the first one ends, and then it is that
   one: the detector and the parser agree on where a value stops.
   */
  lemma CompletedFirst(s: string, i: nat, prefix: string, n: nat)
    requires ClosePrefixShape(prefix) && n <= |s|
    ensures FindCloseTag(s[..n], i, prefix).Some?
            <==> FindCloseTag(s, i, prefix).Some?
                 && CloseTagEnd(s, FindCloseTag(s, i, prefix).value, prefix) <= n
    ensures FindCloseTag(s[..n], i, prefix).Some?
            ==> FindCloseTag(s[..n], i, prefix) == FindCloseTag(s, i, prefix)
  {
    hide CloseTagEnd, FindCloseTag;
    var a, x := s[..n], s[n..];
    assert s == a + x;
    var r := FindCloseTag(a, i, prefix);
    if r.Some? {
      FindCloseTagExtend(a, x, i, prefix);
      CloseTagExtend(a, x, r.value, prefix);
    }
    var r' := FindCloseTag(s, i, prefix);
    if r'.Some? && CloseTagEnd(s, r'.value, prefix) <= n {
      CloseTagExtend(a, x, r'.value, prefix);
    }
  }
}
