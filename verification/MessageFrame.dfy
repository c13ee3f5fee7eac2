/** Messages as frames: a packed header, four segments, and the checks at admission. */
module MessageFrame {
  import opened Common
  import opened Preamble
  import S = SecureFrame

  const HEADER_SIZE := 41
  const ALIGNMENTS: seq<nat> := [8, 8, 8, 4096]

  datatype Header = Header(sequence: nat, transaction: nat, kind: nat, priority: nat, version: nat, prePadding: nat,
                           offset: nat, ack: nat, flags: nat, compat: nat, reserved: nat)

  datatype Lengths = Lengths(front: nat, middle: nat, data: nat)

  datatype Message = Message(header: Header, lengths: Lengths, front: seq<Byte>, middle: seq<Byte>, data: seq<Byte>)

  // ---------------------------------------------------------------- packed numbers

  function Total(sizes: seq<nat>): (n: nat) { if sizes == [] then 0 else sizes[0] + Total(sizes[1..]) }

  /** Numbers of the given widths, one after the other. */
  function Pack(values: seq<nat>, sizes: seq<nat>): (bytes: seq<Byte>)
    requires |values| == |sizes|
    ensures |bytes| == Total(sizes)
  {
    if values == [] then [] else Le(values[0], sizes[0]) + Pack(values[1..], sizes[1..])
  }

  function Unpack(bytes: seq<Byte>, sizes: seq<nat>): (values: seq<nat>)
    requires |bytes| == Total(sizes)
    ensures |values| == |sizes|
    decreases |sizes|
  {
    if sizes == [] then [] else [UnLe(bytes[..sizes[0]])] + Unpack(bytes[sizes[0]..], sizes[1..])
  }

  ghost predicate Narrow(values: seq<nat>, sizes: seq<nat>) {
    |values| == |sizes| && forall i :: 0 <= i < |values| ==> values[i] < Limit(sizes[i])
  }

  lemma {:induction false} UnpackPack(values: seq<nat>, sizes: seq<nat>)
    requires Narrow(values, sizes)
    ensures Unpack(Pack(values, sizes), sizes) == values
    decreases |values|
  {
    if values != [] {
      var head, rest := Le(values[0], sizes[0]), Pack(values[1..], sizes[1..]);
      assert (head + rest)[..sizes[0]] == head && (head + rest)[sizes[0]..] == rest;
      UnLeLe(values[0], sizes[0]);
      UnpackPack(values[1..], sizes[1..]);
    }
  }

  lemma {:induction false} PackUnpack(bytes: seq<Byte>, sizes: seq<nat>)
    requires |bytes| == Total(sizes)
    ensures Pack(Unpack(bytes, sizes), sizes) == bytes && Narrow(Unpack(bytes, sizes), sizes)
    decreases |sizes|
  {
    if sizes != [] {
      LeUnLe(bytes[..sizes[0]]);
      PackUnpack(bytes[sizes[0]..], sizes[1..]);
      assert bytes == bytes[..sizes[0]] + bytes[sizes[0]..];
      var values := Unpack(bytes, sizes);
      assert values[1..] == Unpack(bytes[sizes[0]..], sizes[1..]);
      forall i | 0 <= i < |values| ensures values[i] < Limit(sizes[i]) {
        if i > 0 { assert values[i] == values[1..][i - 1] && sizes[i] == sizes[1..][i - 1]; }
      }
    }
  }

  // ---------------------------------------------------------------- the header

  const WIDTHS: seq<nat> := [8, 8, 2, 2, 2, 4, 2, 8, 1, 2, 2]

  function Values(h: Header): (values: seq<nat>)
    ensures |values| == |WIDTHS|
  {
    [h.sequence, h.transaction, h.kind, h.priority, h.version, h.prePadding, h.offset, h.ack, h.flags, h.compat,
     h.reserved]
  }

  function FromValues(v: seq<nat>): (h: Header)
    requires |v| == |WIDTHS|
    ensures Values(h) == v
  {
    Header(v[0], v[1], v[2], v[3], v[4], v[5], v[6], v[7], v[8], v[9], v[10])
  }

  /** Every field fits its width. */
  ghost predicate InWidth(h: Header) { Narrow(Values(h), WIDTHS) }

  lemma HeaderSize()
    ensures Total(WIDTHS) == HEADER_SIZE
  {
    assert Total([2, 2]) == 4;
    assert Total([8, 1, 2, 2]) == 13;
    assert Total([4, 2, 8, 1, 2, 2]) == 19;
    assert Total([2, 2, 4, 2, 8, 1, 2, 2]) == 23;
    assert Total([8, 2, 2, 2, 4, 2, 8, 1, 2, 2]) == 33;
  }

  function EncodeHeader(h: Header): (bytes: seq<Byte>)
    ensures |bytes| == HEADER_SIZE
  {
    HeaderSize();
    Pack(Values(h), WIDTHS)
  }

  function DecodeHeader(bytes: seq<Byte>): (r: Option<Header>) {
    HeaderSize();
    if |bytes| != HEADER_SIZE then None else Some(FromValues(Unpack(bytes, WIDTHS)))
  }

  /** The header's bytes and fields determine each other. */
  lemma HeaderRoundTrip(h: Header, bytes: seq<Byte>)
    ensures InWidth(h) ==> DecodeHeader(EncodeHeader(h)) == Some(h)
    ensures DecodeHeader(bytes).Some? <==> |bytes| == HEADER_SIZE
    ensures DecodeHeader(bytes).Some? ==>
              InWidth(DecodeHeader(bytes).value) && EncodeHeader(DecodeHeader(bytes).value) == bytes
  {
    hide Pack, Unpack, Narrow;
    HeaderSize();
    if InWidth(h) { UnpackPack(Values(h), WIDTHS); }
    if |bytes| == HEADER_SIZE { PackUnpack(bytes, WIDTHS); }
  }

  lemma {:induction false} PackAt(values: seq<nat>, sizes: seq<nat>, i: nat)
    requires |values| == |sizes| && i < |sizes|
    ensures var from := Total(sizes[..i]);
            from + sizes[i] <= Total(sizes) && Pack(values, sizes)[from..from + sizes[i]] == Le(values[i], sizes[i])
    decreases i
  {
    if i == 0 {
      assert sizes[..0] == [];
    } else {
      PackAt(values[1..], sizes[1..], i - 1);
      assert sizes[..i][1..] == sizes[1..][..i - 1];
      var from := Total(sizes[1..][..i - 1]);
      var head, rest := Le(values[0], sizes[0]), Pack(values[1..], sizes[1..]);
      assert (head + rest)[sizes[0] + from..sizes[0] + from + sizes[i]] == rest[from..from + sizes[i]];
    }
  }

  /** Where each field of a header begins. */
  lemma Offsets()
    ensures Total(WIDTHS[..0]) == 0 && Total(WIDTHS[..1]) == 8 && Total(WIDTHS[..2]) == 16
    ensures Total(WIDTHS[..3]) == 18 && Total(WIDTHS[..4]) == 20 && Total(WIDTHS[..5]) == 22
    ensures Total(WIDTHS[..6]) == 26 && Total(WIDTHS[..7]) == 28 && Total(WIDTHS[..8]) == 36
    ensures Total(WIDTHS[..9]) == 37 && Total(WIDTHS[..10]) == 39
  {
    TotalMore(0); TotalMore(1); TotalMore(2); TotalMore(3); TotalMore(4);
    TotalMore(5); TotalMore(6); TotalMore(7); TotalMore(8); TotalMore(9);
    assert WIDTHS[..0] == [];
  }

  lemma TotalMore(i: nat)
    requires i < |WIDTHS|
    ensures Total(WIDTHS[..i + 1]) == Total(WIDTHS[..i]) + WIDTHS[i]
  {
    assert WIDTHS[..i + 1] == WIDTHS[..i] + [WIDTHS[i]];
    TotalAppend(WIDTHS[..i], WIDTHS[i]);
  }

  lemma {:induction false} TotalAppend(sizes: seq<nat>, size: nat)
    ensures Total(sizes + [size]) == Total(sizes) + size
  {
    if sizes == [] {
      assert [] + [size] == [size] && Total([size][1..]) == 0;
    } else {
      TotalAppend(sizes[1..], size);
      assert (sizes + [size])[1..] == sizes[1..] + [size];
    }
  }

  /** The header byte by byte: each field at its place, little end first. */
  lemma HeaderIs(h: Header)
    ensures var bytes := EncodeHeader(h);
            && bytes[0..8] == Le(h.sequence, 8) && bytes[8..16] == Le(h.transaction, 8)
            && bytes[16..18] == Le(h.kind, 2) && bytes[18..20] == Le(h.priority, 2) && bytes[20..22] == Le(h.version, 2)
            && bytes[22..26] == Le(h.prePadding, 4) && bytes[26..28] == Le(h.offset, 2) && bytes[28..36] == Le(h.ack, 8)
            && bytes[36..37] == Le(h.flags, 1) && bytes[37..39] == Le(h.compat, 2) && bytes[39..41] == Le(h.reserved, 2)
  {
    hide Pack, Total, Le;
    Offsets();
    var values := Values(h);
    forall i | 0 <= i < 11
      ensures var from := Total(WIDTHS[..i]);
              from + WIDTHS[i] <= Total(WIDTHS)
                  && Pack(values, WIDTHS)[from..from + WIDTHS[i]] == Le(values[i], WIDTHS[i])
    {
      PackAt(values, WIDTHS, i);
    }
  }

  // ---------------------------------------------------------------- segments

  function Sizes(segments: seq<S.Segment>): (n: nat) {
    if segments == [] then 0 else Sizes(segments[..|segments| - 1]) + |segments[|segments| - 1].data|
  }

  /** The segments have the alignments of a message and are within the limits. */
  predicate SegmentsOk(segments: seq<S.Segment>, limits: S.Limits)
    requires |segments| <= |ALIGNMENTS|
  {
    && (forall i :: 0 <= i < |segments| ==>
          segments[i].alignment == ALIGNMENTS[i] && |segments[i].data| <= limits.maxSegment)
    && Sizes(segments) <= limits.maxFrame && Sizes(segments) <= MAX_UINT64
  }

  lemma {:induction false} SizesGrow(segments: seq<S.Segment>, n: nat)
    requires n <= |segments|
    ensures Sizes(segments[..n]) <= Sizes(segments)
    decreases |segments|
  {
    if n < |segments| {
      SizesGrow(segments[..|segments| - 1], n);
      assert segments[..|segments| - 1][..n] == segments[..n];
    } else {
      assert segments[..n] == segments;
    }
  }

  /** The check in 64 bits; no sum on the way wraps. */
  method ValidateSegments(segments: seq<S.Segment>, limits: S.Limits) returns (ok: bool)
    requires |segments| <= |ALIGNMENTS| && limits.maxFrame <= MAX_UINT64
    ensures ok == SegmentsOk(segments, limits)
  {
    var total := 0;
    for i := 0 to |segments|
      invariant total == Sizes(segments[..i]) <= MAX_UINT64
      invariant forall j :: 0 <= j < i ==>
                  segments[j].alignment == ALIGNMENTS[j] && |segments[j].data| <= limits.maxSegment
    {
      assert segments[..i + 1][..i] == segments[..i];
      SizesGrow(segments, i + 1);
      if segments[i].alignment != ALIGNMENTS[i] { return false; }
      var length := |segments[i].data|;
      if length > limits.maxSegment || total > MAX_UINT64 - length { return false; }
      total := total + length;
    }
    assert segments[..|segments|] == segments;
    return total <= limits.maxFrame;
  }

  // ---------------------------------------------------------------- messages

  function SegmentsOf(header: seq<Byte>, m: Message): (segments: seq<S.Segment>)
    ensures |segments| == 4
  {
    [S.Segment(ALIGNMENTS[0], header), S.Segment(ALIGNMENTS[1], m.front),
     S.Segment(ALIGNMENTS[2], m.middle), S.Segment(ALIGNMENTS[3], m.data)]
  }

  /** The lengths a message states are those it has. */
  predicate Stated(m: Message) {
    && |m.front| <= S.MAX_UINT32 && |m.middle| <= S.MAX_UINT32 && |m.data| <= S.MAX_UINT32
    && m.lengths == Lengths(|m.front|, |m.middle|, |m.data|) && m.header.prePadding <= |m.data|
  }

  /** What a message is charged for when it is admitted, before it has its numbers; a message
      that could not be sent is refused. */
  function Admission(m: Message, limits: S.Limits): (bytes: Option<nat>) {
    if Stated(m) && SegmentsOk(SegmentsOf(Zeros(HEADER_SIZE), m), limits)
    then Some(HEADER_SIZE + |m.front| + |m.middle| + |m.data|) else None
  }

  function EncodeMessage(m: Message, limits: S.Limits): (frame: Option<S.Frame>) {
    var segments := SegmentsOf(EncodeHeader(m.header), m);
    if Stated(m) && SegmentsOk(segments, limits) then Some(S.Frame(TAG_MESSAGE, segments)) else None
  }

  function DecodeMessage(frame: S.Frame, limits: S.Limits): (m: Option<Message>) {
    var n := |frame.segments|;
    if frame.tag != TAG_MESSAGE || n < 1 || n > |ALIGNMENTS| || !SegmentsOk(frame.segments, limits) then None
    else
      var header := DecodeHeader(frame.segments[0].data);
      var front := if n > 1 then frame.segments[1].data else [];
      var middle := if n > 2 then frame.segments[2].data else [];
      var data := if n > 3 then frame.segments[3].data else [];
      if header.None? || header.value.prePadding > |data| then None
      else Some(Message(header.value, Lengths(|front|, |middle|, |data|), front, middle, data))
  }

  lemma SizesOf(header: seq<Byte>, m: Message)
    ensures Sizes(SegmentsOf(header, m)) == |header| + |m.front| + |m.middle| + |m.data|
  {
    var s := SegmentsOf(header, m);
    assert s[..3][..2] == s[..2] && s[..2][..1] == s[..1] && s[..1][..0] == [];
    assert Sizes(s[..1]) == |header|;
    assert Sizes(s[..2]) == Sizes(s[..1]) + |m.front|;
    assert Sizes(s[..3]) == Sizes(s[..2]) + |m.middle|;
  }

  /** Encoding cannot fail once a message is admitted, whatever numbers it is given then; and it
      is charged for exactly the bytes of its segments. */
  lemma AdmittedEncodes(m: Message, limits: S.Limits, sequence: nat, transaction: nat, ack: nat)
    requires Admission(m, limits).Some?
    ensures var numbered := m.(header := m.header.(sequence := sequence, transaction := transaction, ack := ack));
            var frame := EncodeMessage(numbered, limits);
            && frame.Some? && Admission(m, limits) == Some(Sizes(frame.value.segments))
            && Admission(numbered, limits) == Admission(m, limits)
  {
    hide Sizes, EncodeHeader;
    var numbered := m.(header := m.header.(sequence := sequence, transaction := transaction, ack := ack));
    SizesOf(EncodeHeader(numbered.header), numbered);
    SizesOf(Zeros(HEADER_SIZE), m);
    SizesOf(Zeros(HEADER_SIZE), numbered);
  }

  /** And nothing is refused at admission that could be sent. */
  lemma EncodesAdmitted(m: Message, limits: S.Limits)
    ensures Admission(m, limits).Some? <==> EncodeMessage(m, limits).Some?
  {
    hide Sizes, EncodeHeader;
    SizesOf(EncodeHeader(m.header), m);
    SizesOf(Zeros(HEADER_SIZE), m);
  }

  // ---------------------------------------------------------------- round trips

  lemma {:induction false} TrimmedSizes(segments: seq<S.Segment>)
    requires segments != []
    ensures Sizes(S.Trim(segments)) == Sizes(segments)
    decreases |segments|
  {
    if |segments| > 1 && segments[|segments| - 1].data == [] { TrimmedSizes(segments[..|segments| - 1]); }
  }

  /** What is left out of a frame is empty. */
  lemma {:induction false} TrimmedIs(segments: seq<S.Segment>, i: nat)
    requires i < |segments|
    ensures i < |S.Trim(segments)| ==> S.Trim(segments)[i] == segments[i]
    ensures i >= |S.Trim(segments)| ==> segments[i].data == []
    decreases |segments|
  {
    if |segments| > 1 && segments[|segments| - 1].data == [] && i < |segments| - 1 {
      TrimmedIs(segments[..|segments| - 1], i);
      assert segments[..|segments| - 1][i] == segments[i];
    }
  }

  /** Decoding does not see whether trailing empty segments were sent. */
  lemma DecodeTrimmed(frame: S.Frame, limits: S.Limits)
    requires 1 <= |frame.segments| <= |ALIGNMENTS| && SegmentsOk(frame.segments, limits)
    ensures DecodeMessage(S.Frame(frame.tag, S.Trim(frame.segments)), limits) == DecodeMessage(frame, limits)
  {
    hide Sizes, DecodeHeader, S.Trim;
    var n := |frame.segments|;
    TrimmedSizes(frame.segments);
    forall i | 0 <= i < n
      ensures i < |S.Trim(frame.segments)| ==> S.Trim(frame.segments)[i] == frame.segments[i]
      ensures i >= |S.Trim(frame.segments)| ==> frame.segments[i].data == []
    {
      TrimmedIs(frame.segments, i);
    }
    var t := S.Trim(frame.segments);
    assert 1 <= |t| <= n && t[0] == frame.segments[0];
  }

  /** Decoding an encoded message gives it back, with or without its trailing empty segments. */
  lemma DecodeEncode(m: Message, limits: S.Limits)
    requires InWidth(m.header) && EncodeMessage(m, limits).Some?
    ensures var frame := EncodeMessage(m, limits).value;
            && DecodeMessage(frame, limits) == Some(m)
            && DecodeMessage(S.Frame(frame.tag, S.Trim(frame.segments)), limits) == Some(m)
  {
    hide Sizes, EncodeHeader, DecodeHeader, InWidth;
    HeaderRoundTrip(m.header, []);
    DecodeTrimmed(EncodeMessage(m, limits).value, limits);
  }

  /** A frame that decodes is, but for trailing empty segments, the encoding of its message. */
  lemma EncodeDecode(frame: S.Frame, limits: S.Limits)
    requires DecodeMessage(frame, limits).Some? && limits.maxSegment <= S.MAX_UINT32
    ensures var m := DecodeMessage(frame, limits).value;
            && InWidth(m.header) && EncodeMessage(m, limits).Some?
            && frame.tag == TAG_MESSAGE && frame.segments <= EncodeMessage(m, limits).value.segments
            && forall i :: |frame.segments| <= i < 4 ==> EncodeMessage(m, limits).value.segments[i].data == []
  {
    hide EncodeHeader, DecodeHeader, InWidth;
    var m := DecodeMessage(frame, limits).value;
    HeaderRoundTrip(m.header, frame.segments[0].data);
    var segments := SegmentsOf(EncodeHeader(m.header), m);
    assert frame.segments == segments[..|frame.segments|];
    EmptyTail(segments, |frame.segments|);
  }

  lemma {:induction false} EmptyTail(segments: seq<S.Segment>, n: nat)
    requires n <= |segments| && forall i :: n <= i < |segments| ==> segments[i].data == []
    ensures Sizes(segments) == Sizes(segments[..n])
    decreases |segments|
  {
    if n < |segments| {
      var less := segments[..|segments| - 1];
      EmptyTail(less, n);
      assert less[..n] == segments[..n];
    } else {
      assert segments[..n] == segments;
    }
  }

  /** A message that is sent arrives as it was, through seal, wire and opening. */
  lemma MessageArrives(crc: Checksum, c: S.Cipher, d: S.Direction, m: Message, limits: S.Limits, more: seq<Byte>)
    requires S.Ideal(c) && Checks(crc) && InWidth(m.header) && EncodeMessage(m, limits).Some?
    requires S.Send(crc, c, d, EncodeMessage(m, limits).value, limits).Wire?
    ensures var sent := S.Send(crc, c, d, EncodeMessage(m, limits).value, limits);
            var got := S.Receive(crc, c, d, sent.bytes + more, limits);
            && got.Got? && got.left == more && got.after == sent.after
            && DecodeMessage(got.frame, limits) == Some(m)
  {
    hide S.Send, S.Receive, S.Ideal, DecodeMessage, EncodeMessage, InWidth, S.Trim;
    S.ReceivedAsSent(crc, c, d, EncodeMessage(m, limits).value, limits, more);
    DecodeEncode(m, limits);
  }
}
