/**
 The tail ring buffer used to replay history: a fixed-size buffer that keeps the last
 bytes of a stream appended to it in pieces of any size.
 */
module TailCapture {
  import opened Strings

  /** memcpy within bounds, between distinct buffers. */
  method Copy(dst: array<char>, at: nat, src: string, from: nat, n: nat)
    requires at + n <= dst.Length && from + n <= |src|
    modifies dst
    ensures Written(old(dst[..]), at, src[from..from + n], dst[..])
  {
    for i := 0 to n
      invariant forall k :: 0 <= k < dst.Length && (k < at || at + i <= k) ==> dst[k] == old(dst[k])
      invariant forall k :: at <= k < at + i ==> dst[k] == src[from + (k - at)]
    {
      dst[at + i] := src[from + i];
    }
  }

  /** An offset past the end of the buffer continues at its beginning. */
  function Wrap(x: nat, cap: nat): nat
    requires x < 2 * cap
  {
    if x < cap then x else x - cap
  }

  lemma WrapIsMod(x: nat, cap: nat)
    requires x < 2 * cap
    ensures x % cap == Wrap(x, cap)
  {
  }

  /** The bytes a ring of this geometry holds, oldest first. */
  ghost function Unroll(buf: seq<char>, start: nat, len: nat): (s: string)
    requires start < |buf| && len <= |buf|
    ensures |s| == len
  {
    seq(len, i requires 0 <= i < len => buf[Wrap(start + i, |buf|)])
  }

  lemma UnrollAt(buf: seq<char>, start: nat, len: nat)
    requires start < |buf| && len <= |buf|
    ensures forall i :: 0 <= i < len ==> Unroll(buf, start, len)[i] == buf[Wrap(start + i, |buf|)]
  {
  }

  /** The ring is read out in two pieces. */
  lemma ReadOut(buf: seq<char>, start: nat, len: nat, first: nat)
    requires start < |buf| && len <= |buf| && first == if len < |buf| - start then len else |buf| - start
    ensures Unroll(buf, start, len) == buf[start..start + first] + buf[..len - first]
  {
    UnrollAt(buf, start, len);
  }

  /** `s` written over `buf` at `pos`. */
  ghost predicate Written(buf: seq<char>, pos: nat, s: string, buf': seq<char>) {
    && |buf'| == |buf| && pos + |s| <= |buf|
    && (forall k :: 0 <= k < |buf| && (k < pos || pos + |s| <= k) ==> buf'[k] == buf[k])
    && (forall k :: pos <= k < pos + |s| ==> buf'[k] == s[k - pos])
  }

  /** Writing behind the newest byte, as far as the edge of the buffer. */
  lemma WriteFree(buf: seq<char>, start: nat, len: nat, s: string, buf': seq<char>)
    requires start < |buf| && len + |s| <= |buf|
    requires len < |buf| ==> Written(buf, Wrap(start + len, |buf|), s, buf')
    requires s == "" ==> buf' == buf
    ensures |buf'| == |buf| && Unroll(buf', start, len + |s|) == Unroll(buf, start, len) + s
  {
    if s != "" {
      var pos := Wrap(start + len, |buf|);
      var a, b := Unroll(buf', start, len + |s|), Unroll(buf, start, len) + s;
      UnrollAt(buf', start, len + |s|);
      UnrollAt(buf, start, len);
      forall i | 0 <= i < len + |s| ensures a[i] == b[i] {
        if i >= len {
          assert Wrap(start + i, |buf|) == pos + (i - len);
        }
      }
    }
  }

  /** Overwriting the oldest bytes of a full ring. */
  lemma WriteFull(buf: seq<char>, start: nat, s: string, buf': seq<char>)
    requires start < |buf| && start + |s| <= |buf| && Written(buf, start, s, buf')
    ensures Unroll(buf', Wrap(start + |s|, |buf|), |buf|) == Unroll(buf, start, |buf|)[|s|..] + s
  {
    var cap := |buf|;
    var start' := Wrap(start + |s|, cap);
    var a, b := Unroll(buf', start', cap), Unroll(buf, start, cap)[|s|..] + s;
    UnrollAt(buf', start', cap);
    UnrollAt(buf, start, cap);
    forall i | 0 <= i < cap ensures a[i] == b[i] {
      if i >= cap - |s| {
        assert Wrap(start' + i, cap) == start + (i - (cap - |s|));
      }
    }
  }

  /** A full ring is written where it starts. */
  lemma FullPos(start: nat, cap: nat)
    requires start < cap
    ensures (start + cap) % cap == start
  {
    WrapIsMod(start + cap, cap);
  }

  /** `c` after its oldest bytes gave way to the first `i` bytes of `s`. */
  ghost function Slid(c: string, s: string, i: nat): string
    requires i <= |s|
  {
    (c + s[..i])[i..]
  }

  lemma SlideEnds(c: string, s: string)
    ensures Slid(c, s, 0) == c && Slid(c, s, |s|) == (c + s)[|s|..]
  {
    assert c + s[..0] == c && s[..|s|] == s;
  }

  /** Sliding the kept window over one more chunk. */
  lemma Slide(c: string, s: string, i: nat, chunk: nat, c0: string)
    requires i + chunk <= |s| && chunk <= |c0| && c0 == Slid(c, s, i)
    ensures Slid(c, s, i + chunk) == c0[chunk..] + s[i..i + chunk]
  {
    assert c + s[..i + chunk] == (c + s[..i]) + s[i..i + chunk];
  }

  /** Filling up to the edge and then from the beginning of the buffer. */
  lemma FillTwice(b0: seq<char>, start: nat, len: nat, s: string, chunk: nat, first: nat,
                  b1: seq<char>, b2: seq<char>)
    requires start < |b0| && len < |b0| && len + first <= |b0| && chunk < first <= |s|
    requires chunk == |b0| - (start + len) % |b0|
    requires Written(b0, (start + len) % |b0|, s[0..chunk], b1)
    requires Written(b1, 0, s[chunk..first], b2)
    ensures Unroll(b2, start, len + first) == Unroll(b0, start, len) + s[..first]
  {
    hide Unroll;
    WrapIsMod(start + len, |b0|);
    WriteFree(b0, start, len, s[0..chunk], b1);
    assert Wrap(start + len + chunk, |b0|) == 0;
    WriteFree(b1, start, len + chunk, s[chunk..first], b2);
    assert s[0..chunk] + s[chunk..first] == s[..first];
    assert (Unroll(b0, start, len) + s[0..chunk]) + s[chunk..first] == Unroll(b0, start, len) + s[..first];
  }

  /** A chunk as large as the buffer replaces everything. */
  lemma Replaced(b: seq<char>, s: string, c: string)
    requires 0 < |b| <= |s| && b == s[|s| - |b|..]
    ensures Unroll(b, 0, |b|) == LastN(c + s, |b|)
  {
    UnrollAt(b, 0, |b|);
  }

  /** What filling and then overwriting leave is the end of everything appended. */
  lemma TailKept(c: string, s: string, first: nat, mid: string, cap: nat)
    requires |c| <= cap && |s| < cap && first == (if |s| < cap - |c| then |s| else cap - |c|)
    requires mid == c + s[..first]
    ensures (mid + s[first..])[|s| - first..] == LastN(c + s, cap)
  {
    assert mid + s[first..] == c + s;
  }

  class Ring {
    var buf: array?<char>
    var cap: nat
    var start: nat
    var len: nat
    var total: nat

    ghost predicate Valid()
      reads this, buf
    {
      && len <= cap
      && (buf == null ==> len == 0 && start == 0)
      && (buf != null ==> buf.Length == cap > 0 && start < cap)
    }

    ghost function Contents(): (s: string)
      requires Valid()
      reads this, buf
    {
      if buf == null then "" else Unroll(buf[..], start, len)
    }

    constructor (cap: nat)
      ensures Valid() && this.cap == cap && Contents() == "" && total == 0
    {
      buf := null;
      this.cap := cap;
      start, len, total := 0, 0, 0;
    }

    /** Fill the part of the ring that is still empty; returns how much was taken. */
    method Fill(s: string) returns (first: nat)
      requires Valid() && buf != null && |s| < cap
      modifies this`len, buf
      ensures Valid() && first == (if |s| < cap - old(len) then |s| else cap - old(len))
      ensures Contents() == old(Contents()) + s[..first] && len == old(len) + first
    {
      hide Unroll, Written, Wrap;
      first := 0;
      if len < cap {
        var freeTail := cap - len;
        first := if |s| < freeTail then |s| else freeTail;
        var pos := (start + len) % cap;
        var right := cap - pos;
        var chunk := if first < right then first else right;
        ghost var b0 := buf[..];
        Copy(buf, pos, s, 0, chunk);
        if first > chunk {
          ghost var b1 := buf[..];
          Copy(buf, 0, s, chunk, first - chunk);
          FillTwice(b0, start, len, s, chunk, first, b1, buf[..]);
        } else {
          WrapIsMod(start + len, cap);
          WriteFree(b0, start, len, s[0..chunk], buf[..]);
        }
        len := len + first;
      }
    }

    /** Overwrite the oldest bytes of the full ring, as far as the edge of the buffer. */
    method OverwriteChunk(s: string, i: nat) returns (chunk: nat)
      requires Valid() && buf != null && len == cap && i < |s|
      modifies this`start, buf
      ensures Valid() && 0 < chunk <= cap && i + chunk <= |s|
      ensures Contents() == old(Contents())[chunk..] + s[i..i + chunk]
    {
      hide Unroll, Written, Wrap;
      FullPos(start, cap);
      var pos := (start + len) % cap;
      var right := cap - pos;
      var n := |s| - i;
      chunk := if n < right then n else right;
      ghost var b0 := buf[..];
      Copy(buf, pos, s, i, chunk);
      WriteFull(b0, start, s[i..i + chunk], buf[..]);
      WrapIsMod(start + chunk, cap);
      start := (start + chunk) % cap;
    }

    method Overwrite(s: string)
      requires Valid() && buf != null && (s == "" || len == cap)
      modifies this`start, buf
      ensures Valid() && Contents() == (old(Contents()) + s)[|s|..]
    {
      hide Unroll, Slid;
      var i := 0;
      SlideEnds(Contents(), s);
      while i < |s|
        invariant i <= |s| && Valid()
        invariant Contents() == Slid(old(Contents()), s, i)
        decreases |s| - i
      {
        ghost var c0 := Contents();
        var chunk := OverwriteChunk(s, i);
        Slide(old(Contents()), s, i, chunk, c0);
        i := i + chunk;
      }
    }

    /** A chunk at least as large as the buffer. */
    method Replace(s: string)
      requires Valid() && buf != null && |s| >= cap
      modifies this`start, this`len, buf
      ensures Valid() && Contents() == LastN(old(Contents()) + s, cap)
    {
      ghost var before := Contents();
      Copy(buf, 0, s, |s| - cap, cap);
      start := 0;
      len := cap;
      assert buf[..] == s[|s| - cap..];
      Replaced(buf[..], s, before);
    }

    /** A chunk smaller than the buffer. */
    method Push(s: string)
      requires Valid() && buf != null && |s| < cap
      modifies this`start, this`len, buf
      ensures Valid() && Contents() == LastN(old(Contents()) + s, cap)
    {
      hide Unroll;
      ghost var before := Contents();
      var first := Fill(s);
      ghost var mid := Contents();
      Overwrite(s[first..]);
      TailKept(before, s, first, mid, cap);
    }

    /** agent_tail_capture_append */
    method Append(s: string)
      requires Valid()
      modifies this, buf
      ensures Valid() && cap == old(cap) && (buf == old(buf) || fresh(buf))
      ensures Contents() == LastN(old(Contents()) + s, cap)
      ensures total == old(total) + if cap == 0 then 0 else |s|
    {
      hide Unroll;
      if s == "" || cap == 0 {
        assert s == "" ==> Contents() + s == Contents();
        return;
      }
      if buf == null {
        buf := new char[cap];
        assert Contents() == old(Contents()) == "";
      }
      total := total + |s|;
      if |s| >= cap {
        Replace(s);
      } else {
        Push(s);
      }
    }

    /** agent_tail_capture_take: read the ring out and reset it. */
    method Take() returns (out: string)
      requires Valid()
      modifies this
      ensures out == old(Contents())
      ensures Valid() && buf == null && cap == 0 && Contents() == "" && total == 0
    {
      hide Unroll, Wrap;
      out := "";
      if len == 0 {
        assert Contents() == "";
      } else {
        var right := cap - start;
        var first := if len < right then len else right;
        out := buf[start..start + first];
        if len > first {
          out := out + buf[..len - first];
        }
        ReadOut(buf[..], start, len, first);
        assert buf[start..start + first] == buf[..][start..start + first];
        assert buf[..len - first] == buf[..][..len - first];
      }
      buf := null;
      cap, start, len, total := 0, 0, 0, 0;
    }
  }

  // ------------------------------------------------------------------------------------
  // Any sequence of appends
  // ------------------------------------------------------------------------------------

  /** What the ring holds after a sequence of appends, by the contract of Append. */
  function AfterAppends(s: string, cap: nat, chunks: seq<string>): string
    decreases |chunks|
  {
    if chunks == [] then s else AfterAppends(LastN(s + chunks[0], cap), cap, chunks[1..])
  }

  lemma LastNConcat(a: string, b: string, n: nat)
    ensures LastN(LastN(a, n) + b, n) == LastN(a + b, n)
  {
    var c := LastN(a, n) + b;
    assert |LastN(c, n)| == |LastN(a + b, n)|;
    assert |a| <= n ==> c == a + b;
    assert |a| > n ==> c == (a + b)[|a| - n..];
  }

  lemma ConcatCons(s: string, cap: nat, chunks: seq<string>)
    requires |s| <= cap
    ensures chunks == [] ==> LastN(s + Concat(chunks), cap) == s
    ensures chunks != [] ==> s + chunks[0] + Concat(chunks[1..]) == s + Concat(chunks)
  {
    if chunks != [] {
      Assoc(s, chunks[0], Concat(chunks[1..]));
    } else {
      assert s + [] == s;
    }
  }

  /** The ring holds the last `cap` bytes of the whole stream, however it was cut. */
  lemma {:induction false} KeepsLastBytes(s: string, cap: nat, chunks: seq<string>)
    requires |s| <= cap
    ensures AfterAppends(s, cap, chunks) == LastN(s + Concat(chunks), cap)
    decreases |chunks|
  {
    hide LastN, Concat;
    ConcatCons(s, cap, chunks);
    if chunks != [] {
      KeepsLastBytes(LastN(s + chunks[0], cap), cap, chunks[1..]);
      LastNConcat(s + chunks[0], Concat(chunks[1..]), cap);
    }
  }
}
