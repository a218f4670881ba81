/**
 Byte strings and the few C string primitives the agent is written with.

 A byte is a `char`; every string has an explicit length and no byte is special, so a
 C string is modelled for inputs without a NUL byte.  Searching is by offset into one
 fixed string, which keeps slices out of the proofs.
 */
module Strings {

  datatype Option<T> = None | Some(value: T)

  /** The bytes the agent skips between tags: space, tab, CR and LF. */
  predicate IsSpace(c: char) {
    c == ' ' || c == '\t' || c == '\r' || c == '\n'
  }

  /** `p` is spelled out in `s` starting at offset `i`. */
  predicate OccursAt(s: string, i: int, p: string) {
    0 <= i && i + |p| <= |s| && s[i..i + |p|] == p
  }

  lemma OccursByte(s: string, i: int, p: string, k: nat)
    requires OccursAt(s, i, p) && k < |p|
    ensures s[i + k] == p[k]
  {
    assert s[i..i + |p|][k] == s[i + k];
  }

  lemma OccursFits(s: string, i: int, p: string)
    requires OccursAt(s, i, p)
    ensures 0 <= i && i + |p| <= |s|
  {
  }

  lemma Mismatch(s: string, i: int, p: string, k: int)
    requires 0 <= i && 0 <= k < |p|
    requires i + k < |s| ==> s[i + k] != p[k]
    ensures !OccursAt(s, i, p)
  {
    if i + |p| <= |s| {
      assert s[i..i + |p|][k] == s[i + k];
    }
  }

  /** `p` is spelled nowhere in `s`. */
  ghost predicate Free(s: string, p: string) {
    forall i :: !OccursAt(s, i, p)
  }

  /** First offset at or after `i` where `p` occurs (strstr). */
  function Find(s: string, p: string, i: nat): (r: Option<nat>)
    ensures r.Some? ==> i <= r.value && OccursAt(s, r.value, p)
    ensures r.Some? ==> forall k :: i <= k < r.value ==> !OccursAt(s, k, p)
    ensures r.None? ==> forall k :: i <= k ==> !OccursAt(s, k, p)
    decreases |s| - i
  {
    if i > |s| then None
    else if OccursAt(s, i, p) then Some(i)
    else if i == |s| then None
    else Find(s, p, i + 1)
  }

  /** First offset at or after `i` holding the byte `c` (strchr). */
  function FindChar(s: string, c: char, i: nat): (r: Option<nat>)
    ensures r.Some? ==> i <= r.value < |s| && s[r.value] == c
    ensures r.Some? ==> forall k :: i <= k < r.value ==> s[k] != c
    ensures r.None? ==> forall k :: i <= k < |s| ==> s[k] != c
    decreases |s| - i
  {
    if i >= |s| then None else if s[i] == c then Some(i) else FindChar(s, c, i + 1)
  }

  /** First offset at or after `i` that is not a space, or the end of `s`. */
  function SkipSpace(s: string, i: nat): (r: nat)
    requires i <= |s|
    ensures i <= r <= |s|
    ensures forall k :: i <= k < r ==> IsSpace(s[k])
    ensures r < |s| ==> !IsSpace(s[r])
    decreases |s| - i
  {
    if i < |s| && IsSpace(s[i]) then SkipSpace(s, i + 1) else i
  }

  /** Spaces and line breaks, or nothing. */
  ghost predicate Spaces(s: string) {
    forall k :: 0 <= k < |s| ==> IsSpace(s[k])
  }

  /** The two end points that SkipSpace's contract leaves open coincide. */
  lemma SkipSpaceUnique(s: string, i: nat, r: nat)
    requires i <= r <= |s|
    requires forall k :: i <= k < r ==> IsSpace(s[k])
    requires r < |s| ==> !IsSpace(s[r])
    ensures SkipSpace(s, i) == r
  {
    assert SkipSpace(s, i) >= r;
  }

  /** Appending bytes moves the end of a space run only when the run reached the end. */
  lemma SkipSpaceExtend(s: string, x: string, i: nat)
    requires i <= |s|
    ensures SkipSpace(s, i) < |s| ==> SkipSpace(s + x, i) == SkipSpace(s, i)
    ensures SkipSpace(s + x, SkipSpace(s, i)) == SkipSpace(s + x, i)
    ensures SkipSpace(s, i) == |s| ==> SkipSpace(s + x, i) >= |s|
  {
    var q := SkipSpace(s, i);
    var r := SkipSpace(s + x, i);
    forall k | i <= k < q ensures IsSpace((s + x)[k]) { assert (s + x)[k] == s[k]; }
    assert q <= r;
    SkipSpaceUnique(s + x, q, r);
    if q < |s| {
      assert (s + x)[q] == s[q];
    }
  }

  lemma OccursAtExtend(s: string, x: string, i: int, p: string)
    ensures OccursAt(s, i, p) ==> OccursAt(s + x, i, p)
    ensures OccursAt(s + x, i, p) && i + |p| <= |s| ==> OccursAt(s, i, p)
  {
    if 0 <= i && i + |p| <= |s| {
      assert (s + x)[i..i + |p|] == s[i..i + |p|];
    }
  }

  lemma FreePrefix(v: string, n: nat, p: string)
    requires n <= |v| && Free(v, p)
    ensures Free(v[..n], p)
  {
    forall i ensures !OccursAt(v[..n], i, p) {
      OccursAtExtend(v[..n], v[n..], i, p);
      assert v[..n] + v[n..] == v;
    }
  }

  /** A first occurrence stays the first occurrence when bytes are appended. */
  lemma FindExtend(s: string, x: string, p: string, i: nat)
    requires Find(s, p, i).Some?
    ensures Find(s + x, p, i) == Find(s, p, i)
  {
    var r := Find(s, p, i).value;
    OccursAtExtend(s, x, r, p);
    forall k | i <= k < r ensures !OccursAt(s + x, k, p) {
      OccursAtExtend(s, x, k, p);
    }
  }

  lemma FindUnique(s: string, p: string, i: nat, r: nat)
    requires i <= r && OccursAt(s, r, p)
    requires forall k :: i <= k < r ==> !OccursAt(s, k, p)
    ensures Find(s, p, i) == Some(r)
  {
  }

  lemma FindCharUnique(s: string, c: char, i: nat, r: nat)
    requires i <= r < |s| && s[r] == c
    requires forall k :: i <= k < r ==> s[k] != c
    ensures FindChar(s, c, i) == Some(r)
  {
  }

  lemma FindCharExtend(s: string, x: string, c: char, i: nat)
    requires FindChar(s, c, i).Some?
    ensures FindChar(s + x, c, i) == FindChar(s, c, i)
  {
    var r := FindChar(s, c, i).value;
    assert (s + x)[r] == s[r];
    forall k | i <= k < r ensures (s + x)[k] != c { assert (s + x)[k] == s[k]; }
    FindCharUnique(s + x, c, i, r);
  }

  // Searching after a prefix is searching without it, up to the offset.

  function Moved(e: nat, n: nat): nat {
    if e > 0 then n + e else 0
  }

  function Shift(r: Option<nat>, n: nat): Option<nat> {
    if r.None? then None else Some(r.value + n)
  }

  lemma OccursAtShift(a: string, s: string, i: nat, p: string)
    ensures OccursAt(a + s, |a| + i, p) <==> OccursAt(s, i, p)
  {
    if i + |p| <= |s| {
      assert (a + s)[|a| + i..|a| + i + |p|] == s[i..i + |p|];
    }
  }

  lemma SkipSpaceShift(a: string, s: string, i: nat)
    requires i <= |s|
    ensures SkipSpace(a + s, |a| + i) == |a| + SkipSpace(s, i)
  {
    var r := SkipSpace(s, i);
    forall k | |a| + i <= k < |a| + r ensures IsSpace((a + s)[k]) {
      assert (a + s)[k] == s[k - |a|];
    }
    SkipSpaceUnique(a + s, |a| + i, |a| + r);
  }

  lemma {:induction false} FindCharShift(a: string, s: string, c: char, i: nat)
    requires i <= |s|
    ensures FindChar(a + s, c, |a| + i) == Shift(FindChar(s, c, i), |a|)
    decreases |s| - i
  {
    if i < |s| && s[i] != c {
      FindCharShift(a, s, c, i + 1);
      assert |a| + i + 1 == |a| + (i + 1);
    }
  }

  lemma {:induction false} FindShift(a: string, s: string, p: string, i: nat)
    requires i <= |s|
    ensures Find(a + s, p, |a| + i) == Shift(Find(s, p, i), |a|)
    decreases |s| - i
  {
    hide OccursAt;
    OccursAtShift(a, s, i, p);
    if i < |s| {
      FindShift(a, s, p, i + 1);
      assert |a| + i + 1 == |a| + (i + 1);
    }
  }

  /** What is left after dropping bytes twice. */
  lemma DropTwice(s: string, i: nat, n: nat)
    requires i + n <= |s|
    ensures s[i + n..] == s[i..][n..]
  {
  }

  lemma Cut(s: string, i: nat)
    requires i <= |s|
    ensures s == s[..i] + s[i..] && |s[..i]| == i && s[i..][0..] == s[i..]
  {
  }

  /** The last `n` bytes of `s`, or all of it. */
  function LastN<T>(s: seq<T>, n: nat): (r: seq<T>)
    ensures |r| == if |s| < n then |s| else n
    ensures forall k :: 0 <= k < |r| ==> r[k] == s[|s| - |r| + k]
  {
    if |s| <= n then s else s[|s| - n..]
  }

  lemma LastNNothing(n: nat)
    ensures LastN("", n) == ""
  {
  }

  /** What a text ends in, its last bytes end in, if they are enough. */
  lemma LastNEnds(s: string, n: nat, p: string)
    requires |p| <= n
    ensures var tail := LastN(s, n);
            OccursAt(tail, |tail| - |p|, p) <==> OccursAt(s, |s| - |p|, p)
  {
    var tail := LastN(s, n);
    if |p| <= |s| {
      assert tail[|tail| - |p|..] == s[|s| - |p|..];
      assert tail[|tail| - |p|..|tail|] == tail[|tail| - |p|..];
      assert s[|s| - |p|..|s|] == s[|s| - |p|..];
    }
  }

  lemma Assoc<T>(a: seq<T>, b: seq<T>, c: seq<T>)
    ensures a + (b + c) == a + b + c
  {
  }

  /** All chunks of a stream put together. */
  function Concat<T>(chunks: seq<seq<T>>): (r: seq<T>)
    ensures forall i :: 0 <= i < |chunks| ==> |chunks[i]| <= |r|
  {
    if chunks == [] then [] else chunks[0] + Concat(chunks[1..])
  }
}
