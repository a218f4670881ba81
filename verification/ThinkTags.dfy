/**
 The two think tags and what a part of a text can decide about them.

 Both the agent's stream router and the CLI's printer cut text at these tags while it is
 still arriving, and hold back an ending that may become one.
 */
module ThinkTags {

  datatype Think = Think(open: string, close: string)
  {
    ghost predicate Shape() {
      && 0 < |open| <= PENDING && 0 < |close| <= PENDING
      && !(open <= close) && !(close <= open)
    }
  }

  /** sizeof(pending): room for any part of a tag */
  const PENDING := 16

  const THINK := Think("<think>", "</think>")

  lemma ThinkShape()
    ensures THINK.Shape()
  {
    assert THINK.open[1] != THINK.close[1];
  }

  /** `s` may still become a think tag. */
  predicate HoldBack(t: Think, s: string) {
    s < t.open || s < t.close
  }

  /** A tag met in a longer text was already met, or partly met, in its beginning. */
  lemma PrefixOfConcat(t: string, a: string, b: string)
    ensures a + b < t ==> a < t || b == ""
    ensures t <= a + b ==> t <= a || a < t
  {
    assert (a + b)[..|a|] == a;
    if |a| <= |t| && (a + b <= t || t <= a + b) {
      assert t[..|a|] == (a + b)[..|a|];
    }
    if |t| <= |a| && t <= a + b {
      assert t == (a + b)[..|t|] == a[..|t|];
    }
  }

  /** What a chunk decides about its first byte, the whole text decides the same way. */
  lemma DecidedAlike(v: Think, a: string, b: string)
    requires v.Shape() && a != ""
    ensures |v.open| > 0 && |v.close| > 0
    ensures v.open <= a ==> v.open <= a + b
    ensures v.close <= a ==> v.close <= a + b && !(v.open <= a + b)
    ensures !HoldBack(v, a) && !(v.open <= a) && !(v.close <= a)
        ==> !HoldBack(v, a + b) && !(v.open <= a + b) && !(v.close <= a + b)
  {
    assert b == "" ==> a + b == a;
    PrefixOfConcat(v.open, a, b);
    PrefixOfConcat(v.close, a, b);
    if v.close <= a {
      assert (a + b)[..|v.close|] == v.close;
      if v.open <= a + b {
        OneBeginsOther(v.open, v.close, a + b);
      }
    }
    if v.open <= a {
      assert (a + b)[..|v.open|] == v.open;
    }
  }

  /** Of two tags that both begin a text, one begins the other. */
  lemma OneBeginsOther(t: string, u: string, s: string)
    requires u <= s && t <= s
    ensures t <= u || u <= t
  {
    if |t| <= |u| {
      assert u[..|t|] == s[..|t|];
    } else {
      assert t[..|u|] == s[..|u|];
    }
  }
}
