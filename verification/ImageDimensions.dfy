/** Width and height of a PNG or JPEG from its bytes. */
module ImageDimensions {
  import opened Wrappers
  import opened Machine

  const FILL: Byte := 255

  datatype Size = Size(width: nat, height: nat)

  function U16(bs: Bytes): nat
    requires |bs| >= 2
  {
    bs[0] as int * 256 + bs[1] as int
  }

  function U32(bs: Bytes): nat
    requires |bs| >= 4
  {
    U16(bs) * 65536 + U16(bs[2..])
  }

  /** The start-of-frame markers, C0 to CF without C4, C8 and CC. */
  predicate IsFrameMarker(m: Byte) {
    0xC0 <= m <= 0xCF && m != 0xC4 && m != 0xC8 && m != 0xCC
  }

  function SkipFill(bs: Bytes): (r: Bytes)
    ensures |r| <= |bs| && (bs != [] && bs[0] == FILL ==> |r| < |bs|)
  {
    if bs != [] && bs[0] == FILL then SkipFill(bs[1..]) else bs
  }

  /** The size in the first frame header of a list of marker segments. */
  function ScanSegments(bs: Bytes): Option<Size>
    decreases |bs|
  {
    if |bs| < 4 || bs[0] != FILL then None
    else
      var r := SkipFill(bs);
      if |r| < 3 then None
      else
        var marker, body := r[0], r[1..];
        var length := U16(body);
        if length < 2 || length > |body| then None
        else if !IsFrameMarker(marker) then ScanSegments(body[length..])
        else if length < 7 then None
        else Some(Size(U16(body[5..]), U16(body[3..])))
  }

  predicate IsPng(data: Bytes) {
    |data| >= 24 && data[..8] == PNG_SIGNATURE && data[12..16] == [0x49, 0x48, 0x44, 0x52]
  }

  function Dimensions(data: Bytes): Option<Size> {
    if IsPng(data) then Some(Size(U32(data[16..]), U32(data[20..])))
    else if |data| >= 2 && data[..2] == [0xFF, 0xD8] then ScanSegments(data[2..])
    else None
  }

  /** The inner loop: the position of the first byte at or after `start` that is no fill byte. */
  method AfterFill(data: Bytes, start: nat) returns (offset: nat)
    requires start <= |data|
    ensures start <= offset <= |data| && SkipFill(data[start..]) == data[offset..]
    ensures start < |data| && data[start] == FILL ==> start < offset
  {
    offset := start;
    while offset < |data| && data[offset] == FILL
      invariant start <= offset <= |data|
      invariant SkipFill(data[offset..]) == SkipFill(data[start..])
    {
      assert data[offset..][1..] == data[offset + 1..];
      offset := offset + 1;
    }
  }

  /** What the scan does at a marker that stands at `at`. */
  lemma ScanAt(data: Bytes, start: nat, at: nat)
    requires start + 4 <= |data| && data[start] == FILL && start <= at <= |data|
        && SkipFill(data[start..]) == data[at..]
    ensures at + 3 > |data| ==> ScanSegments(data[start..]).None?
    ensures at + 3 <= |data| ==>
              var body := data[at + 1..];
              var length := U16(body);
              ScanSegments(data[start..]) ==
              if length < 2 || length > |body| then None
              else if !IsFrameMarker(data[at]) then ScanSegments(data[at + 1 + length..])
              else if length < 7 then None
              else Some(Size(U16(data[at + 6..]), U16(data[at + 4..])))
  {
    if at + 3 <= |data| {
      var body := data[at + 1..];
      assert data[at..][1..] == body && data[at..][0] == data[at];
      var length := U16(body);
      if length <= |body| { assert body[length..] == data[at + 1 + length..]; }
      if 7 <= length <= |body| { assert body[3..] == data[at + 4..] && body[5..] == data[at + 6..]; }
    }
  }

  datatype Scan = Done(size: Option<Size>) | GoOn(offset: nat)

  /** One round of the scan, from the fill byte at `start`. */
  method ScanMarker(data: Bytes, start: nat) returns (r: Scan)
    requires start + 4 <= |data|
    ensures r.Done? ==> r.size == ScanSegments(data[start..])
    ensures r.GoOn? ==> start < r.offset <= |data| && ScanSegments(data[r.offset..]) == ScanSegments(data[start..])
  {
    if data[start] != FILL {
      return Done(None);
    }
    var at := AfterFill(data, start);
    ScanAt(data, start, at);
    if at + 3 > |data| {
      return Done(None);
    }
    var length := U16(data[at + 1..at + 3]);
    assert U16(data[at + 1..]) == length;
    if length < 2 || at + 1 + length > |data| {
      return Done(None);
    }
    if IsFrameMarker(data[at]) {
      if length < 7 {
        return Done(None);
      }
      return Done(Some(Size(U16(data[at + 6..at + 8]), U16(data[at + 4..at + 6]))));
    }
    return GoOn(at + 1 + length);
  }

  /** `image_dimensions`; `None` is the ValueError. */
  method FindDimensions(data: Bytes) returns (r: Option<Size>)
    ensures r == Dimensions(data)
  {
    if IsPng(data) {
      return Some(Size(U32(data[16..24]), U32(data[20..24])));
    }
    if |data| < 2 || data[..2] != [0xFF, 0xD8] {
      return None;
    }
    var offset := 2;
    while offset + 4 <= |data|
      invariant 2 <= offset <= |data|
      invariant ScanSegments(data[offset..]) == Dimensions(data)
      decreases |data| - offset
    {
      var scan := ScanMarker(data, offset);
      if scan.Done? {
        return scan.size;
      }
      offset := scan.offset;
    }
    return None;
  }

  /** A marker segment that carries a length and is no frame header, behind any number of fill bytes. */
  datatype Segment = Segment(fill: nat, marker: Byte, payload: Bytes)

  /** A frame header: sample precision, height, width and the component list. */
  datatype Frame = Frame(fill: nat, marker: Byte, precision: Byte, height: nat, width: nat, components: Bytes)

  predicate ValidSegment(s: Segment) {
    s.marker != FILL && !IsFrameMarker(s.marker) && |s.payload| + 2 < 65536
  }

  predicate ValidFrame(f: Frame) {
    IsFrameMarker(f.marker) && f.height < 65536 && f.width < 65536 && |f.components| + 7 < 65536
  }

  function Fill(n: nat): (bs: Bytes)
    ensures |bs| == n
  {
    if n == 0 then [] else [FILL] + Fill(n - 1)
  }

  function Word(n: nat): (bs: Bytes)
    requires n < 65536
    ensures |bs| == 2 && U16(bs) == n
  {
    [n / 256, n % 256]
  }

  function SegmentBytes(s: Segment): Bytes
    requires ValidSegment(s)
  {
    Fill(s.fill + 1) + ([s.marker] + (Word(|s.payload| + 2) + s.payload))
  }

  function FrameBytes(f: Frame): Bytes
    requires ValidFrame(f)
  {
    Fill(f.fill + 1)
    + ([f.marker] + (Word(|f.components| + 7) + ([f.precision] + (Word(f.height) + (Word(f.width) + f.components)))))
  }

  /** Segments, then a frame header, then anything. */
  function JpegBody(segments: seq<Segment>, f: Frame, rest: Bytes): Bytes
    requires ValidFrame(f) && forall i :: 0 <= i < |segments| ==> ValidSegment(segments[i])
  {
    if segments == [] then FrameBytes(f) + rest else SegmentBytes(segments[0]) + JpegBody(segments[1..], f, rest)
  }

  lemma {:induction false} SkipFills(n: nat, m: Byte, rest: Bytes)
    requires m != FILL
    ensures SkipFill(Fill(n) + ([m] + rest)) == [m] + rest
    decreases n
  {
    if n == 0 {
      assert Fill(0) + ([m] + rest) == [m] + rest;
    } else {
      var bs := Fill(n) + ([m] + rest);
      assert bs[1..] == Fill(n - 1) + ([m] + rest);
      SkipFills(n - 1, m, rest);
    }
  }

  /** How one marker segment behind fill bytes is scanned. */
  lemma ScanOne(fill: nat, m: Byte, body: Bytes)
    requires m != FILL && |body| >= 2 && 2 <= U16(body) <= |body|
    ensures ScanSegments(Fill(fill + 1) + ([m] + body)) ==
            if !IsFrameMarker(m) then ScanSegments(body[U16(body)..])
            else if U16(body) < 7 then None
            else Some(Size(U16(body[5..]), U16(body[3..])))
  {
    SkipFills(fill + 1, m, body);
    assert ([m] + body)[1..] == body;
  }

  lemma ScanSegment(s: Segment, rest: Bytes)
    requires ValidSegment(s)
    ensures ScanSegments(SegmentBytes(s) + rest) == ScanSegments(rest)
  {
    var word := Word(|s.payload| + 2);
    var body := word + s.payload + rest;
    assert SegmentBytes(s) + rest == Fill(s.fill + 1) + ([s.marker] + body);
    assert body[0] == word[0] && body[1] == word[1];
    assert body[|s.payload| + 2..] == rest;
    ScanOne(s.fill, s.marker, body);
  }

  lemma ScanFrame(f: Frame, rest: Bytes)
    requires ValidFrame(f)
    ensures ScanSegments(FrameBytes(f) + rest) == Some(Size(f.width, f.height))
  {
    var word, h, w := Word(|f.components| + 7), Word(f.height), Word(f.width);
    var body := word + ([f.precision] + (h + (w + f.components))) + rest;
    assert FrameBytes(f) + rest == Fill(f.fill + 1) + ([f.marker] + body);
    assert body[0] == word[0] && body[1] == word[1];
    assert body[3..][0] == h[0] && body[3..][1] == h[1];
    assert body[5..][0] == w[0] && body[5..][1] == w[1];
    ScanOne(f.fill, f.marker, body);
  }

  /** Every JPEG built from length-carrying segments and a frame header has the size in that header. */
  lemma {:induction false} JpegSizeIsFound(segments: seq<Segment>, f: Frame, rest: Bytes)
    requires ValidFrame(f) && forall i :: 0 <= i < |segments| ==> ValidSegment(segments[i])
    ensures ScanSegments(JpegBody(segments, f, rest)) == Some(Size(f.width, f.height))
    decreases |segments|
  {
    if segments == [] {
      ScanFrame(f, rest);
    } else {
      ScanSegment(segments[0], JpegBody(segments[1..], f, rest));
      JpegSizeIsFound(segments[1..], f, rest);
    }
  }

  const PNG_SIGNATURE: Bytes := [0x89, 0x50, 0x4E, 0x47, 0x0D, 0x0A, 0x1A, 0x0A]

  function Long(n: nat): (bs: Bytes)
    requires n < 0x1_0000_0000
    ensures |bs| == 4
  {
    Word(n / 65536) + Word(n % 65536)
  }

  lemma LongValue(n: nat, rest: Bytes)
    requires n < 0x1_0000_0000
    ensures U32(Long(n) + rest) == n
  {
    var high, low, bs := Word(n / 65536), Word(n % 65536), Long(n) + rest;
    assert bs[0] == high[0] && bs[1] == high[1];
    assert bs[2..][0] == low[0] && bs[2..][1] == low[1];
  }

  /** A PNG file: signature, the header chunk with its length, type and size, then anything. */
  function PngFile(length: nat, width: nat, height: nat, rest: Bytes): Bytes
    requires length < 0x1_0000_0000 && width < 0x1_0000_0000 && height < 0x1_0000_0000
  {
    PNG_SIGNATURE + Long(length) + [0x49, 0x48, 0x44, 0x52] + (Long(width) + (Long(height) + rest))
  }

  lemma PngSizeIsFound(length: nat, width: nat, height: nat, rest: Bytes)
    requires length < 0x1_0000_0000 && width < 0x1_0000_0000 && height < 0x1_0000_0000
    ensures Dimensions(PngFile(length, width, height, rest)) == Some(Size(width, height))
  {
    var data := PngFile(length, width, height, rest);
    assert data[..8] == PNG_SIGNATURE && data[12..16] == [0x49, 0x48, 0x44, 0x52];
    assert data[16..] == Long(width) + (Long(height) + rest) && data[20..] == Long(height) + rest;
    LongValue(width, Long(height) + rest);
    LongValue(height, rest);
  }

  /** A JPEG file: the start marker, then a body. */
  lemma JpegFileSizeIsFound(segments: seq<Segment>, f: Frame, rest: Bytes)
    requires ValidFrame(f) && forall i :: 0 <= i < |segments| ==> ValidSegment(segments[i])
    ensures Dimensions([0xFF, 0xD8] + JpegBody(segments, f, rest)) == Some(Size(f.width, f.height))
  {
    var body := JpegBody(segments, f, rest);
    var data := [0xFF, 0xD8] + body;
    assert data[0] == 0xFF && data[..2] == [0xFF, 0xD8] && data[2..] == body;
    assert !IsPng(data) by { assert |data| < 8 || data[..8][0] == 0xFF; }
    JpegSizeIsFound(segments, f, rest);
  }

  lemma {:induction false} FillOf(bs: Bytes) returns (n: nat)
    requires bs != [] && bs[0] == FILL
    ensures bs == Fill(n + 1) + SkipFill(bs) && (SkipFill(bs) != [] ==> SkipFill(bs)[0] != FILL)
    decreases |bs|
  {
    if |bs| > 1 && bs[1] == FILL {
      n := FillOf(bs[1..]);
      n := n + 1;
      assert bs == [FILL] + bs[1..];
      assert [FILL] + (Fill(n) + SkipFill(bs)) == [FILL] + Fill(n) + SkipFill(bs);
    } else {
      n := 0;
      assert Fill(1) == [FILL] && bs == [FILL] + bs[1..];
    }
  }

  lemma WordOf(bs: Bytes)
    requires |bs| >= 2
    ensures U16(bs) < 65536 && Word(U16(bs)) == bs[..2]
  {
  }

  lemma SegmentOf(fill: nat, m: Byte, body: Bytes) returns (s: Segment)
    requires m != FILL && !IsFrameMarker(m) && |body| >= 2 && 2 <= U16(body) <= |body|
    ensures ValidSegment(s) && SegmentBytes(s) + body[U16(body)..] == Fill(fill + 1) + ([m] + body)
  {
    var length := U16(body);
    WordOf(body);
    s := Segment(fill, m, body[2..length]);
    assert body == Word(length) + s.payload + body[length..];
  }

  lemma FrameOf(fill: nat, m: Byte, body: Bytes) returns (f: Frame)
    requires IsFrameMarker(m) && |body| >= 2 && 7 <= U16(body) <= |body|
    ensures ValidFrame(f) && FrameBytes(f) + body[U16(body)..] == Fill(fill + 1) + ([m] + body)
    ensures f.width == U16(body[5..]) && f.height == U16(body[3..])
  {
    var length := U16(body);
    WordOf(body);
    WordOf(body[3..]);
    WordOf(body[5..]);
    f := Frame(fill, m, body[2], U16(body[3..]), U16(body[5..]), body[7..length]);
    assert body[3..][..2] == body[3..5] && body[5..][..2] == body[5..7];
    assert body == Word(length) + ([f.precision] + (Word(f.height) + (Word(f.width) + f.components))) + body[length..];
  }

  /** A size is found only in a JPEG of that shape, and it is the size in its frame header. */
  lemma {:induction false} FoundSizeIsInFrame(bs: Bytes) returns (segments: seq<Segment>, f: Frame, rest: Bytes)
    requires ScanSegments(bs).Some?
    ensures ValidFrame(f) && forall i :: 0 <= i < |segments| ==> ValidSegment(segments[i])
    ensures JpegBody(segments, f, rest) == bs && ScanSegments(bs) == Some(Size(f.width, f.height))
    decreases |bs|
  {
    var fill := FillOf(bs);
    var r := SkipFill(bs);
    var marker, body := r[0], r[1..];
    assert r == [marker] + body;
    var length := U16(body);
    if IsFrameMarker(marker) {
      f := FrameOf(fill, marker, body);
      segments, rest := [], body[length..];
    } else {
      var s := SegmentOf(fill, marker, body);
      var more;
      more, f, rest := FoundSizeIsInFrame(body[length..]);
      segments := [s] + more;
      assert segments[1..] == more;
    }
  }

  lemma LongOf(bs: Bytes)
    requires |bs| >= 4
    ensures U32(bs) < 0x1_0000_0000 && Long(U32(bs)) == bs[..4]
  {
    WordOf(bs);
    WordOf(bs[2..]);
    var high, low := U16(bs), U16(bs[2..]);
    assert U32(bs) / 65536 == high && U32(bs) % 65536 == low;
    assert bs[..4] == bs[..2] + bs[2..][..2];
  }

  /** Every file with a size is a PNG or a JPEG file of the shapes above, and the size is the one written in it. */
  ghost predicate IsImage(data: Bytes, size: Size) {
    || (exists length: nat, rest: Bytes ::
          length < 0x1_0000_0000 && size.width < 0x1_0000_0000 && size.height < 0x1_0000_0000
          && data == PngFile(length, size.width, size.height, rest))
    || exists segments: seq<Segment>, f: Frame, rest: Bytes ::
         IsJpegFile(data, segments, f, rest) && size == Size(f.width, f.height)
  }

  predicate IsJpegFile(data: Bytes, segments: seq<Segment>, f: Frame, rest: Bytes) {
    && ValidFrame(f) && (forall i :: 0 <= i < |segments| ==> ValidSegment(segments[i]))
    && data == [0xFF, 0xD8] + JpegBody(segments, f, rest)
  }

  lemma PngOf(data: Bytes)
    requires IsPng(data)
    ensures IsImage(data, Size(U32(data[16..]), U32(data[20..])))
  {
    LongOf(data[8..]);
    LongOf(data[16..]);
    LongOf(data[20..]);
    var length, width, height, rest := U32(data[8..]), U32(data[16..]), U32(data[20..]), data[24..];
    assert data[8..][..4] == data[8..12] && data[16..][..4] == data[16..20] && data[20..][..4] == data[20..24];
    assert data == data[..8] + data[8..12] + data[12..16] + (data[16..20] + (data[20..24] + data[24..]));
    assert data == PngFile(length, width, height, rest);
  }

  /** A size is found exactly in the files of these shapes. */
  lemma SizeIffImage(data: Bytes, size: Size)
    ensures Dimensions(data) == Some(size) <==> IsImage(data, size)
  {
    if Dimensions(data) == Some(size) {
      if IsPng(data) {
        PngOf(data);
      } else {
        var segments, f, rest := FoundSizeIsInFrame(data[2..]);
        assert data == data[..2] + data[2..];
        assert IsJpegFile(data, segments, f, rest);
      }
    }
    if IsImage(data, size) {
      if length: nat, rest: Bytes :| length < 0x1_0000_0000 && size.width < 0x1_0000_0000 && size.height < 0x1_0000_0000
                                     && data == PngFile(length, size.width, size.height, rest) {
        PngSizeIsFound(length, size.width, size.height, rest);
      } else {
        var segments: seq<Segment>, f: Frame, rest: Bytes :| IsJpegFile(data, segments, f, rest)
            && size == Size(f.width, f.height);
        JpegFileSizeIsFound(segments, f, rest);
      }
    }
  }
}
