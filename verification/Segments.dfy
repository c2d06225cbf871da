/** Cutting a TXT value into character-strings of at most 255 bytes (section 3.3 of RFC 1035)
    without cutting through a character. */
module Segments {
  import opened Bytes
  import opened Utf8
  import opened Wrappers

  const MAX_SEGMENT_BYTES: nat := 255

  function BoundaryAtOrBefore(v: bytes, end: nat): (r: nat)
    requires end <= |v|
    ensures r <= end && IsBoundary(v, r)
    ensures forall j :: r < j <= end ==> !IsBoundary(v, j)
  {
    if IsBoundary(v, end) then end else BoundaryAtOrBefore(v, end - 1)
  }

  function SegmentEnd(v: bytes, start: nat): nat
    requires start <= |v|
  {
    BoundaryAtOrBefore(v, if start + MAX_SEGMENT_BYTES < |v| then start + MAX_SEGMENT_BYTES else |v|)
  }

  /** Every step of the cutting loop makes progress, and a step that does not finish moves
      at least 252 bytes. */
  lemma SegmentProgress(s: string, start: nat)
    requires start < |ToUtf8(s)|
    ensures start < SegmentEnd(ToUtf8(s), start) <= start + MAX_SEGMENT_BYTES
    ensures SegmentEnd(ToUtf8(s), start) < |ToUtf8(s)| ==> SegmentEnd(ToUtf8(s), start) >= start + 252
  {
    var v := ToUtf8(s);
    if start + MAX_SEGMENT_BYTES < |v| {
      BoundaryNearby(s, start + MAX_SEGMENT_BYTES);
    } else {
      assert IsBoundary(v, |v|);
    }
  }

  function SegmentsFrom(s: string, start: nat): seq<bytes>
    requires start <= |ToUtf8(s)|
    decreases |ToUtf8(s)| - start
  {
    var v := ToUtf8(s);
    if start == |v| then []
    else
      SegmentProgress(s, start);
      var end := SegmentEnd(v, start);
      [v[start..end]] + SegmentsFrom(s, end)
  }

  /** The character-strings of a TXT value; the empty value is one empty string. */
  function CharSegments(s: string): seq<bytes> {
    if s == "" then [[]] else SegmentsFrom(s, 0)
  }

  method CharBoundarySegments(value: string) returns (segments: seq<bytes>)
    ensures segments == CharSegments(value)
  {
    if value == "" {
      return [[]];
    }
    segments := [];
    var v := ToUtf8(value);
    var start := 0;
    while start < |v|
      invariant start <= |v|
      invariant segments + SegmentsFrom(value, start) == SegmentsFrom(value, 0)
    {
      var end := if start + MAX_SEGMENT_BYTES < |v| then start + MAX_SEGMENT_BYTES else |v|;
      while !IsBoundary(v, end)
        invariant 0 <= end <= |v|
        invariant BoundaryAtOrBefore(v, end) == SegmentEnd(v, start)
        decreases end
      {
        end := end - 1;
      }
      SegmentProgress(value, start);
      assert SegmentsFrom(value, start) == [v[start..end]] + SegmentsFrom(value, end);
      assert segments + SegmentsFrom(value, start) == segments + [v[start..end]] + SegmentsFrom(value, end);
      segments := segments + [v[start..end]];
      start := end;
    }
  }

  /** The segments spell `v`, none is longer than 255 bytes or holds part of a character, and
      every segment but the last has at least 252 bytes. */
  ghost predicate WellCut(segments: seq<bytes>, v: bytes) {
    && Concat(segments) == v
    && (forall k :: 0 <= k < |segments| ==> |segments[k]| <= MAX_SEGMENT_BYTES && IsUtf8(segments[k]))
    && (forall k :: 0 <= k < |segments| - 1 ==> |segments[k]| >= 252)
  }

  lemma SuffixBoundary(v: bytes, start: nat, end: nat)
    requires start <= end <= |v| && IsBoundary(v, end)
    ensures IsBoundary(v[start..], end - start)
  {
  }

  lemma SliceIsText(s: string, start: nat, end: nat)
    requires start <= end <= |ToUtf8(s)|
    requires IsBoundary(ToUtf8(s), start) && IsBoundary(ToUtf8(s), end)
    ensures IsUtf8(ToUtf8(s)[start..end])
  {
    hide EncodeChar;
    var k := BoundarySplitsText(s, start);
    SuffixBoundary(ToUtf8(s), start, end);
    PrefixIsText(s[k..], end - start);
    assert ToUtf8(s)[start..][..end - start] == ToUtf8(s)[start..end];
  }

  lemma PrefixIsText(s: string, end: nat)
    requires end <= |ToUtf8(s)| && IsBoundary(ToUtf8(s), end)
    ensures IsUtf8(ToUtf8(s)[..end])
  {
    var k := BoundarySplitsText(s, end);
    assert ToUtf8(s[..k]) == ToUtf8(s)[..end];
  }

  lemma WellCutCons(first: bytes, rest: seq<bytes>, v: bytes)
    requires WellCut(rest, v)
    requires |first| <= MAX_SEGMENT_BYTES && IsUtf8(first)
    requires rest != [] ==> |first| >= 252
    ensures WellCut([first] + rest, first + v)
  {
  }

  lemma {:induction false} SegmentsFromProperties(s: string, start: nat)
    requires start <= |ToUtf8(s)| && IsBoundary(ToUtf8(s), start)
    ensures WellCut(SegmentsFrom(s, start), ToUtf8(s)[start..])
    decreases |ToUtf8(s)| - start
  {
    hide ToUtf8;
    if start < |ToUtf8(s)| {
      SegmentProgress(s, start);
      var end := SegmentEnd(ToUtf8(s), start);
      SegmentsFromProperties(s, end);
      SliceIsText(s, start, end);
      assert ToUtf8(s)[start..] == ToUtf8(s)[start..end] + ToUtf8(s)[end..];
      WellCutCons(ToUtf8(s)[start..end], SegmentsFrom(s, end), ToUtf8(s)[end..]);
    }
  }

  lemma SegmentsSpellValue(s: string)
    ensures WellCut(CharSegments(s), ToUtf8(s))
  {
    if s == "" {
      assert ToUtf8("") == [];
      assert CharSegments(s)[1..] == [];
    } else {
      SegmentsFromProperties(s, 0);
      assert ToUtf8(s)[0..] == ToUtf8(s);
    }
  }

  /** Reassembling the character-strings of a TXT record gives back the text. */
  lemma ReassembleSegments(s: string)
    ensures FromUtf8(Concat(CharSegments(s))) == Some(s)
  {
    SegmentsSpellValue(s);
    FromUtf8OfToUtf8(s);
  }
}
