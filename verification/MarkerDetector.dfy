/**
 The sliding windows that look for markers in a stream: a small buffer that is shifted in
 place by every byte, and compared at its end.
 */
module MarkerDetector {
  import opened Strings
  import opened StreamRouter

  class ByteWindow {
    const tail: array<char>
    var len: nat

    ghost predicate Valid()
      reads this
    {
      len <= tail.Length
    }

    ghost function Contents(): (s: string)
      requires Valid()
      reads this, tail
    {
      tail[..len]
    }

    constructor (size: nat)
      ensures Valid() && fresh(tail) && tail.Length == size && Contents() == ""
    {
      tail := new char[size];
      len := 0;
    }

    /** memmove of the buffer by one byte, when it is full */
    method Drop()
      requires Valid() && len > 0
      modifies this, tail
      ensures Valid() && len == old(len) - 1 && Contents() == old(Contents())[1..]
    {
      for i := 0 to len - 1
        invariant len == old(len)
        invariant forall k :: 0 <= k < i ==> tail[k] == old(tail[k + 1])
        invariant forall k :: i <= k < tail.Length ==> tail[k] == old(tail[k])
      {
        tail[i] := tail[i + 1];
      }
      len := len - 1;
      assert Contents() == old(Contents())[1..];
    }

    /** One more byte; the window keeps the last bytes of everything pushed. */
    method Push(c: char)
      requires Valid() && tail.Length > 0
      modifies this, tail
      ensures Valid() && Contents() == LastN(old(Contents()) + [c], tail.Length)
    {
      if len == tail.Length {
        Drop();
      }
      tail[len] := c;
      len := len + 1;
      assert Contents() == LastN(old(Contents()) + [c], tail.Length);
    }

    /** agent_tail_matches */
    method EndsIn(needle: string) returns (b: bool)
      requires Valid()
      ensures b == OccursAt(Contents(), |Contents()| - |needle|, needle)
    {
      if len < |needle| {
        return false;
      }
      var at := len - |needle|;
      for i := 0 to |needle|
        invariant forall k :: 0 <= k < i ==> tail[at + k] == needle[k]
      {
        if tail[at + i] != needle[i] {
          Mismatch(Contents(), at, needle, i);
          return false;
        }
      }
      ghost var end := Contents()[at..at + |needle|];
      forall k | 0 <= k < |needle| ensures end[k] == needle[k] {
        assert end[k] == tail[at + k];
      }
      assert end == needle;
      return true;
    }

    /** agent_dsml_marker_detector_feed */
    method Feed(c: char, markers: seq<string>) returns (hit: bool)
      requires Valid() && tail.Length > 0
      modifies this, tail
      ensures Valid() && Contents() == LastN(old(Contents()) + [c], tail.Length)
      ensures hit == EndsInMarker(Contents(), markers)
    {
      Push(c);
      for k := 0 to |markers|
        invariant Valid() && Contents() == LastN(old(Contents()) + [c], tail.Length)
        invariant forall j :: 0 <= j < k ==>
                    !OccursAt(Contents(), |Contents()| - |markers[j]|, markers[j])
      {
        hit := EndsIn(markers[k]);
        if hit {
          return;
        }
      }
      return false;
    }
  }

  lemma LastNOne(s: string, c: char, n: nat)
    requires n > 0
    ensures LastN(LastN(s, n) + [c], n) == LastN(s + [c], n)
  {
  }

  lemma NoMarkerInNothing(markers: seq<string>)
    requires forall k :: 0 <= k < |markers| ==> 0 < |markers[k]|
    ensures NoMarker("", markers)
  {
  }

  lemma EndIsMarker(s: string, markers: seq<string>, n: nat)
    requires forall k :: 0 <= k < |markers| ==> |markers[k]| <= n
    ensures EndsInMarker(LastN(s, n), markers) ==> !NoMarker(s, markers)
  {
    if EndsInMarker(LastN(s, n), markers) {
      var tail := LastN(s, n);
      var k :| 0 <= k < |markers| && OccursAt(tail, |tail| - |markers[k]|, markers[k]);
      LastNEnds(s, n, markers[k]);
    }
  }

  /**
   A detector run over a whole stream: it hits if and only if the stream spells a marker,
   and then at the first byte that completes one.
   */
  method Scan(s: string, markers: seq<string>) returns (at: Option<nat>)
    requires forall k :: 0 <= k < |markers| ==> 0 < |markers[k]| <= DETECTOR
    ensures at.None? <==> NoMarker(s, markers)
    ensures at.Some? ==> at.value < |s| && NoMarker(s[..at.value], markers)
                         && EndsInMarker(LastN(s[..at.value + 1], DETECTOR), markers)
  {
    hide LastN, NoMarker, EndsInMarker;
    var w := new ByteWindow(DETECTOR);
    NoMarkerInNothing(markers);
    assert s[..0] == "" && LastN("", DETECTOR) == "" by { LastNNothing(DETECTOR); }
    for i := 0 to |s|
      invariant w.Valid() && fresh(w) && fresh(w.tail) && w.tail.Length == DETECTOR
      invariant w.Contents() == LastN(s[..i], DETECTOR) && NoMarker(s[..i], markers)
    {
      var hit := w.Feed(s[i], markers);
      LastNOne(s[..i], s[i], DETECTOR);
      assert s[..i + 1] == s[..i] + [s[i]];
      if hit {
        EndIsMarker(s[..i + 1], markers, DETECTOR);
        if NoMarker(s, markers) {
          NoMarkerPrefix(s, i + 1, markers);
        }
        return Some(i);
      }
      WindowSees(s[..i], s[i], markers);
    }
    assert s[..|s|] == s;
    return None;
  }
}
