/**
 The old/new edit tool: selecting the span to replace, splicing the file, and reporting
 how later lines moved.
 */
module EditEngine {
  import opened Strings

  // ------------------------------------------------------------------------------------
  // Lines
  // ------------------------------------------------------------------------------------

  /** agent_line_span */
  datatype Span = Span(start: nat, contentEnd: nat, end: nat)

  predicate IsBreak(c: char) {
    c == '\n' || c == '\r'
  }

  function ContentEnd(d: string, pos: nat): (r: nat)
    requires pos <= |d|
    ensures pos <= r <= |d|
    ensures forall k :: pos <= k < r ==> !IsBreak(d[k])
    ensures r < |d| ==> IsBreak(d[r])
    decreases |d| - pos
  {
    if pos < |d| && !IsBreak(d[pos]) then ContentEnd(d, pos + 1) else pos
  }

  /** Where the line that starts at `pos` ends: after LF, CR or CRLF, or at the end. */
  function LineStop(d: string, pos: nat): (r: nat)
    requires pos < |d|
    ensures pos < r <= |d|
  {
    var c := ContentEnd(d, pos);
    if c == |d| then |d|
    else if d[c] == '\r' && c + 1 < |d| && d[c + 1] == '\n' then c + 2
    else c + 1
  }

  /** The lines from offset `pos` on. */
  function Split(d: string, pos: nat): seq<Span>
    requires pos <= |d|
    decreases |d| - pos
  {
    if pos == |d| then []
    else [Span(pos, ContentEnd(d, pos), LineStop(d, pos))] + Split(d, LineStop(d, pos))
  }

  lemma SplitOne(d: string, q: nat, before: seq<Span>)
    requires q < |d|
    ensures before + Split(d, q)
            == before + [Span(q, ContentEnd(d, q), LineStop(d, q))] + Split(d, LineStop(d, q))
  {
    hide LineStop, ContentEnd;
  }

  lemma SplitEnd(d: string)
    ensures Split(d, |d|) == []
  {
  }

  // ---- what a line is ------------------------------------------------------------------

  /** A line starts at `q`: at the beginning, or behind a line break that is complete. */
  ghost predicate StartsLine(d: string, q: nat) {
    q < |d| && (q == 0 || d[q - 1] == '\n' || (d[q - 1] == '\r' && d[q] != '\n'))
  }

  /** How many lines start behind offset `from`, up to and including `q`. */
  ghost function Starts(d: string, from: nat, q: nat): nat
    decreases q
  {
    if q <= from then 0 else Starts(d, from, q - 1) + if StartsLine(d, q) then 1 else 0
  }

  /** The line break of a span: none only at the end of the file. */
  ghost predicate Break(d: string, s: Span) {
    s.contentEnd <= s.end <= |d| &&
    var b := d[s.contentEnd..s.end];
    b == "\n" || b == "\r" || b == "\r\n" || (b == "" && s.end == |d|)
  }

  /** A line: it starts one, holds no break, and ends with one where the next line starts. */
  ghost predicate IsLine(d: string, s: Span) {
    && s.start <= s.contentEnd && s.start < s.end && Break(d, s)
    && (forall k :: s.start <= k < s.contentEnd ==> !IsBreak(d[k]))
    && StartsLine(d, s.start) && (s.end < |d| ==> StartsLine(d, s.end))
    && (forall k :: s.start < k < s.end ==> !StartsLine(d, k))
  }

  lemma FirstLine(d: string, pos: nat)
    requires StartsLine(d, pos)
    ensures IsLine(d, Span(pos, ContentEnd(d, pos), LineStop(d, pos)))
  {
    var c, stop := ContentEnd(d, pos), LineStop(d, pos);
    if c < |d| {
      assert d[c..stop] == if stop == c + 2 then [d[c], d[c + 1]] else [d[c]];
    }
    forall k | pos < k < stop ensures !StartsLine(d, k) {
      assert k <= c + 1;
      assert k <= c ==> !IsBreak(d[k - 1]);
    }
  }

  /** The spans are the lines of the file, one behind the other, and nothing else. */
  lemma {:induction false} SplitTiles(d: string, pos: nat)
    requires pos == |d| || StartsLine(d, pos)
    ensures var s := Split(d, pos);
            && (s == [] <==> pos == |d|)
            && (forall i :: 0 <= i < |s| ==> IsLine(d, s[i]))
            && (s != [] ==> s[0].start == pos && s[|s| - 1].end == |d|)
            && (forall i :: 0 <= i < |s| - 1 ==> s[i].end == s[i + 1].start)
    decreases |d| - pos
  {
    if pos < |d| {
      FirstLine(d, pos);
      var stop := LineStop(d, pos);
      SplitTiles(d, stop);
      var s, rest := Split(d, pos), Split(d, stop);
      forall i | 0 <= i < |s| ensures IsLine(d, s[i]) {
        assert i > 0 ==> s[i] == rest[i - 1];
      }
      forall i | 0 <= i < |s| - 1 ensures s[i].end == s[i + 1].start {
        assert s[i + 1] == rest[i] && (i > 0 ==> s[i] == rest[i - 1]);
      }
    }
  }

  lemma {:induction false} NoStarts(d: string, from: nat, q: nat)
    requires forall k :: from < k <= q ==> !StartsLine(d, k)
    ensures Starts(d, from, q) == 0
    decreases q
  {
    if q > from {
      NoStarts(d, from, q - 1);
    }
  }

  lemma {:induction false} StartsSplit(d: string, from: nat, mid: nat, q: nat)
    requires from <= mid <= q
    ensures Starts(d, from, q) == Starts(d, from, mid) + Starts(d, mid, q)
    decreases q
  {
    if q > mid {
      StartsSplit(d, from, mid, q - 1);
    }
  }

  lemma {:induction false} LineInCounts(d: string, pos: nat, q: nat)
    requires StartsLine(d, pos) && pos <= q < |d|
    ensures LineIn(Split(d, pos), q) == 1 + Starts(d, pos, q)
    decreases |d| - pos
  {
    FirstLine(d, pos);
    var stop := LineStop(d, pos);
    assert Split(d, pos)[1..] == Split(d, stop);
    if q < stop {
      NoStarts(d, pos, q);
    } else {
      LineInCounts(d, stop, q);
      assert Split(d, stop) != [];
      StartsSplit(d, pos, stop, q);
      StartsSplit(d, pos, stop - 1, stop);
      NoStarts(d, pos, stop - 1);
      assert Starts(d, stop - 1, stop) == Starts(d, stop - 1, stop - 1) + 1;
    }
  }

  /** The line of a byte is one more than the line starts between the beginning and it. */
  lemma LineOfCounts(d: string, q: nat)
    requires q < |d|
    ensures LineOf(d, q) == 1 + Starts(d, 0, q)
  {
    LineInCounts(d, 0, q);
  }

  /** There are as many spans as line starts. */
  lemma SpansCount(d: string)
    requires d != ""
    ensures |Split(d, 0)| == 1 + Starts(d, 0, |d| - 1)
  {
    var last := |d| - 1;
    LineFromEnd(d, 0, last);
    LineInCounts(d, 0, last);
    assert LineStop(d, last) == |d|;
    SplitEnd(d);
  }

  /** agent_split_lines */
  method SplitLines(d: string) returns (spans: seq<Span>)
    ensures spans == Split(d, 0)
  {
    hide Split;
    spans := [];
    var pos := 0;
    while pos < |d|
      invariant pos <= |d| && spans + Split(d, pos) == Split(d, 0)
      decreases |d| - pos
    {
      var start := pos;
      while pos < |d| && !IsBreak(d[pos])
        invariant start <= pos <= |d|
        invariant ContentEnd(d, start) == ContentEnd(d, pos)
      {
        pos := pos + 1;
      }
      var contentEnd := pos;
      if pos < |d| {
        if d[pos] == '\r' && pos + 1 < |d| && d[pos + 1] == '\n' {
          pos := pos + 2;
        } else {
          pos := pos + 1;
        }
      }
      assert pos == LineStop(d, start);
      SplitOne(d, start, spans);
      spans := spans + [Span(start, contentEnd, pos)];
    }
    SplitEnd(d);
  }

  /** The 1-based line that agent_line_for_offset finds. */
  function LineIn(spans: seq<Span>, offset: nat): (r: nat)
    ensures r <= |spans| || spans == []
  {
    if spans == [] then 1
    else if offset < spans[0].end || |spans| == 1 then 1
    else 1 + LineIn(spans[1..], offset)
  }

  method LineForOffset(spans: seq<Span>, offset: nat) returns (line: nat)
    ensures line == LineIn(spans, offset)
  {
    if |spans| == 0 {
      return 1;
    }
    var i := 0;
    while i < |spans|
      invariant i <= |spans|
      invariant i < |spans| ==> LineIn(spans, offset) == i + LineIn(spans[i..], offset)
      invariant i == |spans| ==> LineIn(spans, offset) == |spans|
    {
      if offset < spans[i].end {
        return i + 1;
      }
      if i + 1 < |spans| {
        assert spans[i..][1..] == spans[i + 1..];
      }
      i := i + 1;
    }
    return |spans|;
  }

  ghost function LineOf(d: string, q: nat): nat {
    LineIn(Split(d, 0), q)
  }

  /** Starting in the middle of a line does not change where it stops. */
  lemma SameStop(d: string, pos: nat, q: nat)
    requires pos <= q < |d| && q < LineStop(d, pos)
    ensures LineStop(d, q) == LineStop(d, pos)
  {
    var c := ContentEnd(d, pos);
    if q <= c {
      ContentEndSame(d, pos, q);
    }
  }

  lemma ContentEndSame(d: string, pos: nat, q: nat)
    requires pos <= |d| && pos <= q <= ContentEnd(d, pos)
    ensures ContentEnd(d, q) == ContentEnd(d, pos)
  {
  }

  /**
   Lines are counted the same from both ends: the line of a byte and the number of lines
   from that byte on add up to the lines of the file.
   */
  lemma {:induction false} LineFromEnd(d: string, pos: nat, q: nat)
    requires pos <= q < |d|
    ensures LineIn(Split(d, pos), q) + |Split(d, q)| == |Split(d, pos)| + 1
    decreases |d| - pos
  {
    var stop := LineStop(d, pos);
    var rest := Split(d, stop);
    assert Split(d, pos)[1..] == rest;
    if q < stop {
      SameStop(d, pos, q);
    } else {
      LineFromEnd(d, stop, q);
    }
  }

  lemma {:induction false} ContentEndShift(d: string, q: nat, d': string, q': nat)
    requires q <= |d| && q' <= |d'| && d[q..] == d'[q'..]
    ensures ContentEnd(d, q) - q == ContentEnd(d', q') - q'
    decreases |d| - q
  {
    assert |d| - q == |d'| - q';
    if q < |d| {
      assert d[q] == d[q..][0] && d'[q'] == d'[q'..][0];
      if !IsBreak(d[q]) {
        assert d[q + 1..] == d[q..][1..] && d'[q' + 1..] == d'[q'..][1..];
        ContentEndShift(d, q + 1, d', q' + 1);
      }
    }
  }

  lemma LineStopShift(d: string, q: nat, d': string, q': nat)
    requires q < |d| && q' < |d'| && d[q..] == d'[q'..]
    ensures LineStop(d, q) - q == LineStop(d', q') - q'
  {
    ContentEndShift(d, q, d', q');
    assert |d| - q == |d'| - q';
    var c, c' := ContentEnd(d, q), ContentEnd(d', q');
    if c < |d| {
      assert d[c] == d[q..][c - q] && d'[c'] == d'[q'..][c' - q'];
      if c + 1 < |d| {
        assert d[c + 1] == d[q..][c + 1 - q] && d'[c' + 1] == d'[q'..][c' + 1 - q'];
      }
    }
  }

  lemma TailsMeet(d: string, q: nat, d': string, q': nat, n: nat)
    requires q <= |d| && q' <= |d'| && d[q..] == d'[q'..] && q + n <= |d|
    ensures |d| - q == |d'| - q' && d[q + n..] == d'[q' + n..]
  {
    assert |d[q..]| == |d'[q'..]|;
    DropTwice(d, q, n);
    DropTwice(d', q', n);
  }

  lemma SplitCount(d: string, q: nat)
    requires q < |d|
    ensures |Split(d, q)| == 1 + |Split(d, LineStop(d, q))|
  {
  }

  /** How many lines follow depends only on the bytes that follow. */
  lemma {:induction false} SplitShift(d: string, q: nat, d': string, q': nat)
    requires q <= |d| && q' <= |d'| && d[q..] == d'[q'..]
    ensures |Split(d, q)| == |Split(d', q')|
    decreases |d| - q
  {
    hide LineStop, ContentEnd, Split;
    TailsMeet(d, q, d', q', 0);
    if q == |d| {
      SplitEnd(d);
      SplitEnd(d');
    } else {
      LineStopShift(d, q, d', q');
      SplitCount(d, q);
      SplitCount(d', q');
      var n := LineStop(d, q) - q;
      TailsMeet(d, q, d', q', n);
      SplitShift(d, q + n, d', q' + n);
    }
  }

  /** agent_apply_file_splice: the new contents of the file. */
  function Splice(d: string, offset: nat, removeLen: nat, insert: string): (r: string)
    requires offset + removeLen <= |d|
    ensures |r| == |d| - removeLen + |insert|
  {
    d[..offset] + insert + d[offset + removeLen..]
  }

  /** The line shift: the difference of the line counts. */
  function Delta(d: string, d': string): int {
    |Split(d', 0)| - |Split(d, 0)|
  }

  /**
   The reported shift is exact for every byte behind the replaced span, also where lines
   were joined or a CR met an LF.
   */
  lemma ShiftExact(d: string, offset: nat, removeLen: nat, insert: string, q: nat)
    requires offset + removeLen <= q < |d|
    ensures var d' := Splice(d, offset, removeLen, insert);
            LineOf(d', q - removeLen + |insert|) == LineOf(d, q) + Delta(d, d')
  {
    var d' := Splice(d, offset, removeLen, insert);
    var q' := q - removeLen + |insert|;
    assert d'[q'..] == d[q..];
    SplitShift(d, q, d', q');
    LineFromEnd(d, 0, q);
    LineFromEnd(d', 0, q');
  }

  /** Whether a line reaches past `q` is decided by the bytes up to `q`. */
  lemma StopBefore(d: string, d': string, pos: nat, q: nat)
    requires pos <= q < |d| && q < |d'| && d[..q + 1] == d'[..q + 1]
    ensures LineStop(d, pos) <= q ==> LineStop(d', pos) == LineStop(d, pos)
    ensures LineStop(d, pos) > q ==> LineStop(d', pos) > q
  {
    forall k | 0 <= k <= q ensures d[k] == d'[k] {
      assert d[k] == d[..q + 1][k] && d'[k] == d'[..q + 1][k];
    }
    var c := ContentEnd(d, pos);
    if c <= q {
      ContentEndUnique(d', pos, c);
    } else {
      assert ContentEnd(d', pos) > q;
    }
  }

  lemma ContentEndUnique(d: string, pos: nat, c: nat)
    requires pos <= c < |d| && IsBreak(d[c])
    requires forall k :: pos <= k < c ==> !IsBreak(d[k])
    ensures ContentEnd(d, pos) == c
  {
  }

  lemma {:induction false} LineBefore(d: string, d': string, pos: nat, q: nat)
    requires pos <= q < |d| && q < |d'| && d[..q + 1] == d'[..q + 1]
    ensures LineIn(Split(d, pos), q) == LineIn(Split(d', pos), q)
    decreases |d| - pos
  {
    StopBefore(d, d', pos, q);
    var stop := LineStop(d, pos);
    assert Split(d, pos)[1..] == Split(d, stop);
    assert Split(d', pos)[1..] == Split(d', LineStop(d', pos));
    if stop <= q {
      LineBefore(d, d', stop, q);
      assert |Split(d, pos)| > 1 && |Split(d', pos)| > 1;
    }
  }

  /** Bytes in front of the edit stay on their lines. */
  lemma LinesBeforeStay(d: string, offset: nat, removeLen: nat, insert: string, q: nat)
    requires offset + removeLen <= |d| && q < offset
    ensures LineOf(Splice(d, offset, removeLen, insert), q) == LineOf(d, q)
  {
    var d' := Splice(d, offset, removeLen, insert);
    assert d[..q + 1] == d'[..q + 1];
    LineBefore(d, d', 0, q);
  }

  // ------------------------------------------------------------------------------------
  // Selecting the span
  // ------------------------------------------------------------------------------------

  /** `needle` occurs at `i`, and nowhere else at or after `from`; overlaps count. */
  ghost predicate UniqueAt(d: string, needle: string, i: int, from: nat) {
    && from <= i && OccursAt(d, i, needle)
    && forall j :: from <= j && OccursAt(d, j, needle) ==> j == i
  }

  datatype Why = AnchorEmpty | AnchorNotFound | AnchorNotUnique | UptoDisabled | ManyMarkers | BlankTail

  datatype Found = At(i: nat) | Missing(why: Why)

  /** agent_memmem_simple on the part of the file from `from` on. */
  method MemMem(d: string, from: nat, needle: string) returns (r: Option<nat>)
    requires from <= |d| && needle != ""
    ensures r == Find(d, needle, from)
  {
    if |needle| > |d| - from {
      NoRoom(d, from, needle);
      return None;
    }
    var i := from;
    while i <= |d| - |needle|
      invariant from <= i
      invariant Find(d, needle, from) == Find(d, needle, i)
    {
      if d[i] == needle[0] && d[i..i + |needle|] == needle {
        return Some(i);
      }
      Mismatched(d, i, needle);
      i := i + 1;
    }
    NoRoom(d, i, needle);
    return None;
  }

  lemma NoRoom(d: string, from: nat, needle: string)
    requires |needle| > |d| - from
    ensures Find(d, needle, from) == None
  {
  }

  lemma Mismatched(d: string, i: nat, needle: string)
    requires needle != "" && i < |d|
    requires d[i] != needle[0] || !OccursAt(d, i, needle)
    ensures !OccursAt(d, i, needle)
  {
    if d[i] != needle[0] {
      Mismatch(d, i, needle, 0);
    }
  }

  /** agent_find_unique and agent_find_unique_after */
  method FindUniqueFrom(d: string, from: nat, needle: string) returns (r: Found)
    requires from <= |d|
    ensures forall i: nat :: r == At(i) <==> needle != "" && UniqueAt(d, needle, i, from)
    ensures r.Missing? ==>
              r.why == (if needle == "" then AnchorEmpty
                        else if Find(d, needle, from).None? then AnchorNotFound
                        else AnchorNotUnique)
  {
    if needle == "" {
      return Missing(AnchorEmpty);
    }
    var first := MemMem(d, from, needle);
    if first.None? {
      return Missing(AnchorNotFound);
    }
    var second := MemMem(d, first.value + 1, needle);
    if second.Some? {
      assert OccursAt(d, first.value, needle) && OccursAt(d, second.value, needle);
      return Missing(AnchorNotUnique);
    }
    forall j | from <= j && OccursAt(d, j, needle) ensures j == first.value {
    }
    return At(first.value);
  }

  const MARKER := "[upto]"

  /** isspace in the C locale */
  predicate IsBlank(c: char) {
    c == ' ' || c == '\t' || c == '\n' || c == '\U{0B}' || c == '\U{0C}' || c == '\r'
  }

  predicate Blank(s: string) {
    forall k :: 0 <= k < |s| ==> IsBlank(s[k])
  }

  /** The tail anchor: what follows the marker without its leading line breaks. */
  function StripBreaks(s: string): string {
    if s != "" && IsBreak(s[0]) then StripBreaks(s[1..]) else s
  }

  datatype Selection = Match(at: nat, len: nat, anchored: bool) | Refused(why: Why)

  /** What a selector with a marker at `h` asks for. */
  ghost predicate AnchoredMatch(d: string, sel: string, h: nat, at: int, len: int) {
    && h + |MARKER| <= |sel|
    && var head, tail := sel[..h], StripBreaks(sel[h + |MARKER|..]);
    && !Blank(tail) && head != ""
    && UniqueAt(d, head, at, 0)
    && UniqueAt(d, tail, at + len - |tail|, at + |head|)
  }

  /** The span an edit selects, said without an algorithm. */
  ghost predicate Determined(d: string, sel: string, allowUpto: bool, at: int, len: int, anchored: bool) {
    if anchored then
      allowUpto && exists h: nat :: UniqueAt(sel, MARKER, h, 0) && AnchoredMatch(d, sel, h, at, len)
    else
      Free(sel, MARKER) && sel != "" && UniqueAt(d, sel, at, 0) && len == |sel|
  }

  /** Two copies of the marker never overlap, so a second one is behind the first. */
  lemma MarkerApart(s: string, i: int, j: int)
    requires OccursAt(s, i, MARKER) && OccursAt(s, j, MARKER) && i < j
    ensures j >= i + |MARKER|
  {
    OccursByte(s, j, MARKER, 0);
    if j < i + |MARKER| {
      OccursByte(s, i, MARKER, j - i);
    }
  }

  method Strip(s: string) returns (t: string)
    ensures t == StripBreaks(s)
  {
    t := s;
    while t != "" && IsBreak(t[0])
      invariant StripBreaks(t) == StripBreaks(s)
      decreases |t|
    {
      t := t[1..];
    }
  }

  lemma MarkerUnique(sel: string, h: nat)
    requires Find(sel, MARKER, 0) == Some(h) && Find(sel, MARKER, h + |MARKER|).None?
    ensures UniqueAt(sel, MARKER, h, 0)
  {
    forall j | 0 <= j && OccursAt(sel, j, MARKER) ensures j == h {
      if j > h {
        MarkerApart(sel, h, j);
      }
    }
  }

  /** The anchored case, the one marker at `h`. */
  method FindAnchored(d: string, sel: string, h: nat) returns (r: Selection)
    requires UniqueAt(sel, MARKER, h, 0)
    ensures forall at: nat, len: nat, anchored ::
              r == Match(at, len, anchored) <==> anchored && AnchoredMatch(d, sel, h, at, len)
    ensures r.Refused? ==> r.why != UptoDisabled && r.why != ManyMarkers
  {
    var head := sel[..h];
    var tail := Strip(sel[h + |MARKER|..]);
    if Blank(tail) {
      return Refused(BlankTail);
    }
    var headAt := FindUniqueFrom(d, 0, head);
    if headAt.Missing? {
      NoHead(d, sel, h, head, tail);
      return Refused(headAt.why);
    }
    var from := headAt.i + |head|;
    var tailAt := FindUniqueFrom(d, from, tail);
    if tailAt.Missing? {
      NoTail(d, sel, h, headAt.i, head, tail, from);
      return Refused(tailAt.why);
    }
    r := Match(headAt.i, tailAt.i - headAt.i + |tail|, true);
    SpanIs(d, sel, h, headAt.i, tailAt.i, head, tail);
  }

  lemma NoHead(d: string, sel: string, h: nat, head: string, tail: string)
    requires h + |MARKER| <= |sel| && head == sel[..h] && tail == StripBreaks(sel[h + |MARKER|..])
    requires forall i: nat :: !(head != "" && UniqueAt(d, head, i, 0))
    ensures forall at, len :: at >= 0 ==> !AnchoredMatch(d, sel, h, at, len)
  {
  }

  lemma NoTail(d: string, sel: string, h: nat, at: nat, head: string, tail: string, from: nat)
    requires h + |MARKER| <= |sel| && head == sel[..h] && tail == StripBreaks(sel[h + |MARKER|..])
    requires UniqueAt(d, head, at, 0) && from == at + |head|
    requires forall i: nat :: !(tail != "" && UniqueAt(d, tail, i, from))
    ensures forall a, len :: a >= 0 ==> !AnchoredMatch(d, sel, h, a, len)
  {
    forall a, len | a >= 0 ensures !AnchoredMatch(d, sel, h, a, len) {
      assert UniqueAt(d, head, a, 0) ==> a == at;
    }
  }

  lemma SpanIs(d: string, sel: string, h: nat, i: nat, t: nat, head: string, tail: string)
    requires h + |MARKER| <= |sel| && head == sel[..h] && tail == StripBreaks(sel[h + |MARKER|..])
    requires !Blank(tail) && head != "" && UniqueAt(d, head, i, 0) && UniqueAt(d, tail, t, i + |head|)
    ensures forall at, len :: AnchoredMatch(d, sel, h, at, len) <==> at == i && len == t - i + |tail|
  {
    forall at, len ensures AnchoredMatch(d, sel, h, at, len) <==> at == i && len == t - i + |tail| {
      if AnchoredMatch(d, sel, h, at, len) {
        assert at == i;
        assert at + len - |tail| == t;
      }
    }
  }

  /**
   agent_edit_find_old_span: succeeds exactly when a span is determined, and returns it.
   */
  method FindOldSpan(d: string, sel: string, allowUpto: bool) returns (r: Selection)
    ensures forall at: nat, len: nat, anchored ::
              r == Match(at, len, anchored) <==> Determined(d, sel, allowUpto, at, len, anchored)
    ensures r.Match? ==> 0 < r.len && r.at + r.len <= |d|
  {
    var upto := Find(sel, MARKER, 0);
    if upto.None? {
      var m := FindUniqueFrom(d, 0, sel);
      if m.Missing? {
        return Refused(m.why);
      }
      return Match(m.i, |sel|, false);
    }
    var h := upto.value;
    assert OccursAt(sel, h, MARKER);
    if !allowUpto {
      return Refused(UptoDisabled);
    }
    var more := Find(sel, MARKER, h + |MARKER|);
    if more.Some? {
      assert OccursAt(sel, more.value, MARKER);
      return Refused(ManyMarkers);
    }
    MarkerUnique(sel, h);
    r := FindAnchored(d, sel, h);
    OneMarker(d, sel, h, allowUpto);
  }

  lemma OneMarker(d: string, sel: string, h: nat, allowUpto: bool)
    requires UniqueAt(sel, MARKER, h, 0)
    ensures forall at, len :: Determined(d, sel, allowUpto, at, len, true)
              <==> allowUpto && AnchoredMatch(d, sel, h, at, len)
    ensures forall at, len :: !Determined(d, sel, allowUpto, at, len, false)
  {
  }

  // ------------------------------------------------------------------------------------
  // The edit tool
  // ------------------------------------------------------------------------------------

  datatype Report = Report(startLine: nat, endLine: nat, delta: int)

  datatype EditResult =
    | EmptyOld
    | Rejected(why: Why)
    | Edited(contents: string, at: nat, len: nat, anchored: bool, report: Report)

  /** agent_old_new_line_effect; a file that is being edited is not empty. */
  method LineEffect(d: string, d': string, offset: nat, removeLen: nat) returns (r: Report)
    requires 0 < removeLen && offset + removeLen <= |d|
    ensures r == Report(LineOf(d, offset), LineOf(d, offset + removeLen - 1), Delta(d, d'))
  {
    var oldSpans := SplitLines(d);
    var newSpans := SplitLines(d');
    var last := offset + removeLen - 1;
    var startLine := LineForOffset(oldSpans, offset);
    var endLine := LineForOffset(oldSpans, last);
    r := Report(startLine, endLine, |newSpans| - |oldSpans|);
  }

  /** The reported shift holds for every byte behind the edit, and lines before it stay. */
  ghost predicate ShiftHolds(d: string, d': string, at: nat, len: nat, insertLen: nat, delta: int) {
    && (forall q :: at + len <= q < |d| ==> LineOf(d', q - len + insertLen) == LineOf(d, q) + delta)
    && (forall q :: 0 <= q < at ==> LineOf(d', q) == LineOf(d, q))
  }

  /**
   agent_tool_edit on the contents of a file: it rewrites exactly the determined span, and
   refuses exactly when none is determined.
   */
  method Edit(d: string, sel: string, new_: string, allowUpto: bool) returns (r: EditResult)
    ensures sel == "" <==> r.EmptyOld?
    ensures r.Rejected? ==> forall at: nat, len: nat, anchored ::
              !Determined(d, sel, allowUpto, at, len, anchored)
    ensures r.Edited? ==>
              && Determined(d, sel, allowUpto, r.at, r.len, r.anchored)
              && 0 < r.len && r.at + r.len <= |d|
              && r.contents == d[..r.at] + new_ + d[r.at + r.len..]
              && r.report.startLine == LineOf(d, r.at)
              && r.report.endLine == LineOf(d, r.at + r.len - 1)
              && ShiftHolds(d, r.contents, r.at, r.len, |new_|, r.report.delta)
  {
    if sel == "" {
      return EmptyOld;
    }
    var s := FindOldSpan(d, sel, allowUpto);
    if s.Refused? {
      return Rejected(s.why);
    }
    var contents := Splice(d, s.at, s.len, new_);
    var report := LineEffect(d, contents, s.at, s.len);
    forall q | s.at + s.len <= q < |d|
      ensures LineOf(contents, q - s.len + |new_|) == LineOf(d, q) + report.delta
    {
      ShiftExact(d, s.at, s.len, new_, q);
    }
    forall q | 0 <= q < s.at ensures LineOf(contents, q) == LineOf(d, q) {
      LinesBeforeStay(d, s.at, s.len, new_, q);
    }
    return Edited(contents, s.at, s.len, s.anchored, report);
  }
}
