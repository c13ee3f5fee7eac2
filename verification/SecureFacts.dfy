/** What a secure frame looks like on the wire, and that a reader accepts nothing else. */
module SecureFacts {
  import opened Common
  import opened Preamble
  import opened SecureFrame

  /** Authentication: a record opens only if it was sealed. */
  ghost predicate Authentic(c: Cipher) {
    Ideal(c) && forall n, x :: c.open(n, x).Some? ==> x == c.seal(n, c.open(n, x).value)
  }

  /** The last block of a frame of several segments. */
  function Closing(status: Byte): (block: seq<Byte>)
    ensures |block| == BLOCK
  {
    [status] + Zeros(BLOCK - 1)
  }

  /** What one segment takes up: its bytes and zeros up to a multiple of sixteen. */
  function Block(data: seq<Byte>): (block: seq<Byte>) {
    data + Zeros((16 - |data| % 16) % 16)
  }

  function Blocks(segments: seq<Segment>): (bytes: seq<Byte>) {
    if segments == [] then [] else Block(segments[0].data) + Blocks(segments[1..])
  }

  /** The plaintext of a frame, record by record: the preamble with the first 48 bytes of the first segment;
      what is left of that segment, if anything; the other segments and the closing block, if there are any. */
  function Layout(preamble: seq<Byte>, segments: seq<Segment>, status: Byte): (records: seq<seq<Byte>>)
    requires segments != []
  {
    var first := Block(segments[0].data);
    [preamble + (if |first| >= 48 then first[..48] else first + Zeros(48 - |first|))]
    + (if |first| > 48 then [first[48..]] else [])
    + (if |segments| > 1 then [Blocks(segments[1..]) + Closing(status)] else [])
  }

  lemma PadIs(data: seq<Byte>)
    ensures Pad(data) == Block(data)
  {
    var n := |data|;
    assert Padded(n) - n == (16 - n % 16) % 16 by {
      if n % 16 == 0 { assert Padded(n) == n; } else { assert Padded(n) == n + 16 - n % 16; }
    }
  }

  lemma {:induction false} RestIs(segments: seq<Segment>)
    ensures Rest(segments) == Blocks(segments)
  {
    hide Pad, Block;
    if segments != [] {
      PadIs(segments[0].data);
      RestIs(segments[1..]);
    }
  }

  lemma InlineIs(data: seq<Byte>)
    ensures var first := Block(data);
            Inline(data) == if |first| >= 48 then first[..48] else first + Zeros(48 - |first|)
  {
    var first := Block(data);
    if |data| >= 48 {
      assert first[..48] == data[..48];
    } else if |first| >= 48 {
      assert |first| == 48;
    }
  }

  /** The records of a frame are laid out so; one that was sent says in its closing block that it is complete. */
  lemma RecordsAre(crc: Checksum, tag: Byte, segments: seq<Segment>, status: Byte)
    requires 1 <= |segments| <= 4
    ensures var layout := Layout(Encode(crc, tag, Describe(segments)), segments, status);
            RecordsClosed(crc, tag, segments, Closing(status)) == layout
                && (status == 0x0e ==> Records(crc, tag, segments) == layout)
  {
    hide Encode, Inline, Block, Rest, Blocks, Pad;
    PadIs(segments[0].data);
    InlineIs(segments[0].data);
    RestIs(segments[1..]);
  }

  // ---------------------------------------------------------------- what is accepted was written

  lemma SealedIs(c: Cipher, d: Direction, input: seq<Byte>, size: nat)
    requires Authentic(c) && Open(c, d, input, size).Opened?
    ensures var record := Open(c, d, input, size);
            && |record.plain| + TAG == size && record.after == Advance(d)
            && input == c.seal(NonceOf(d), record.plain) + record.left
  {
    assert input == input[..size] + input[size..];
  }

  lemma PaddedIs(bytes: seq<Byte>, n: nat, p: nat)
    requires n <= p <= |bytes| && p == Padded(n) && AllZero(bytes[n..p])
    ensures bytes[..p] == Pad(bytes[..n])
  {
    forall i | n <= i < p ensures bytes[i] == 0 { assert bytes[n..p][i - n] == 0; }
  }

  lemma OneMoreSegment(segment: Segment, rest: seq<Segment>, tail: seq<Byte>)
    ensures Describe([segment] + rest) == [Descriptor(|segment.data|, segment.alignment)] + Describe(rest)
    ensures Rest([segment] + rest) + tail == Pad(segment.data) + (Rest(rest) + tail)
  {
    hide Pad;
    assert ([segment] + rest)[1..] == rest;
  }

  lemma OneCut(bytes: seq<Byte>, ds: seq<Descriptor>)
    requires ds != [] && |bytes| == RestSize(ds) + BLOCK && Split(bytes, ds).Some?
    ensures var n, p := ds[0].length, Padded(ds[0].length);
            && n <= p <= |bytes| && AllZero(bytes[n..p]) && |bytes[p..]| == RestSize(ds[1..]) + BLOCK
            && Split(bytes[p..], ds[1..]).Some?
            && var (rest, tail) := Split(bytes[p..], ds[1..]).value;
            Split(bytes, ds).value == ([Segment(ds[0].alignment, bytes[..n])] + rest, tail)
  {
    hide Padded;
  }

  /** Cutting succeeds only on what laying out the segments gives. */
  lemma {:induction false} SplitIs(bytes: seq<Byte>, ds: seq<Descriptor>)
    requires |bytes| == RestSize(ds) + BLOCK && Split(bytes, ds).Some?
    ensures var (segments, tail) := Split(bytes, ds).value; Describe(segments) == ds && bytes == Rest(segments) + tail
    decreases |ds|
  {
    if ds == [] {
      hide Rest, Describe;
      NothingLaidOut(bytes);
    } else {
      OneCut(bytes, ds);
      hide Padded, Pad, Rest, Describe, Split, RestSize, AllZero;
      var n, p := ds[0].length, Padded(ds[0].length);
      SplitIs(bytes[p..], ds[1..]);
      var (rest, tail) := Split(bytes[p..], ds[1..]).value;
      PaddedIs(bytes, n, p);
      OneMoreSegment(Segment(ds[0].alignment, bytes[..n]), rest, tail);
      assert ds == [ds[0]] + ds[1..] && bytes == bytes[..p] + bytes[p..];
    }
  }

  lemma NothingLaidOut(bytes: seq<Byte>)
    ensures Describe([]) == [] && Rest([]) + bytes == bytes
  {
  }

  /** The first segment, cut out of its padding, gives the inline part and the overflow back. */
  lemma FirstIs(inline: seq<Byte>, more: seq<Byte>, n: nat)
    requires |inline| == INLINE && |more| == (if Padded(n) > INLINE then Padded(n) - INLINE else 0)
    requires n <= |inline + more| && AllZero((inline + more)[n..])
    ensures var data := (inline + more)[..n];
            Inline(data) == inline && (Padded(n) > INLINE ==> Overflow(data) == more)
  {
    var padded := inline + more;
    var data := padded[..n];
    forall i | n <= i < |padded| ensures padded[i] == 0 { assert padded[n..][i - n] == 0; }
    if Padded(n) > INLINE {
      assert Pad(data) == padded;
      assert Inline(data) == inline;
    } else {
      assert more == [] && padded == inline;
    }
  }

  lemma RestAccepted(c: Cipher, d: Direction, input: seq<Byte>, tag: Byte, ds: seq<Descriptor>, padded: seq<Byte>)
    returns (status: Byte)
    requires Authentic(c) && ds != [] && ds[0].length <= |padded| && ReceiveRest(c, d, input, tag, ds, padded).Got?
    ensures var got := ReceiveRest(c, d, input, tag, ds, padded);
            var segments := got.frame.segments;
            var records := if |segments| > 1 then [Rest(segments[1..]) + Closing(status)] else [];
            && status % 16 == COMPLETE && got.frame.tag == tag && Describe(segments) == ds
            && segments[0].data == padded[..ds[0].length] && AllZero(padded[ds[0].length..])
            && input == SealAll(c, d, records) + got.left && got.after == AdvanceBy(d, |records|)
  {
    hide Ideal, Rest, Split, RestSize;
    var got := ReceiveRest(c, d, input, tag, ds, padded);
    status := COMPLETE;
    if |ds| > 1 {
      SealedIs(c, d, input, RestSize(ds[1..]) + BLOCK + TAG);
      var rest := Open(c, d, input, RestSize(ds[1..]) + BLOCK + TAG).plain;
      SplitIs(rest, ds[1..]);
      var (segments, tail) := Split(rest, ds[1..]).value;
      status := tail[0];
      assert tail == Closing(status) by { assert forall i :: 1 <= i < BLOCK ==> tail[i] == tail[1..][i - 1]; }
      assert got.frame.segments[1..] == segments;
      SealOne(c, d, rest);
      AdvanceOne(d);
    } else {
      assert SealAll(c, d, []) + input == input;
    }
  }

  lemma FirstAccepted(c: Cipher, d: Direction, input: seq<Byte>, tag: Byte, ds: seq<Descriptor>, inline: seq<Byte>)
    returns (status: Byte)
    requires Authentic(c) && ds != [] && |inline| == INLINE && ReceiveFirst(c, d, input, tag, ds, inline).Got?
    ensures var got := ReceiveFirst(c, d, input, tag, ds, inline);
            var segments := got.frame.segments;
            && status % 16 == COMPLETE && got.frame.tag == tag && Describe(segments) == ds && segments != []
            && Inline(segments[0].data) == inline
            && var records := (if Padded(|segments[0].data|) > INLINE then [Overflow(segments[0].data)] else [])
                              + (if |segments| > 1 then [Rest(segments[1..]) + Closing(status)] else []);
            input == SealAll(c, d, records) + got.left && got.after == AdvanceBy(d, |records|)
  {
    hide Ideal, Rest, ReceiveRest, Inline, Overflow, RestSize, Padded;
    var n := ds[0].length;
    assert n <= Padded(n);
    if OverflowSize(ds) == 0 {
      status := RestAccepted(c, d, input, tag, ds, inline);
      assert inline + [] == inline;
      FirstIs(inline, [], n);
      OneRecordLess(c, d, [], ReceiveFirst(c, d, input, tag, ds, inline).frame.segments, status);
    } else {
      var size := OverflowSize(ds) + TAG;
      SealedIs(c, d, input, size);
      var record := Open(c, d, input, size);
      status := RestAccepted(c, record.after, record.left, tag, ds, inline + record.plain);
      FirstIs(inline, record.plain, n);
      var got := ReceiveFirst(c, d, input, tag, ds, inline);
      OneRecordLess(c, d, [record.plain], got.frame.segments, status);
      var rest := if |ds| > 1 then [Rest(got.frame.segments[1..]) + Closing(status)] else [];
      assert input == c.seal(NonceOf(d), record.plain) + (SealAll(c, Advance(d), rest) + got.left);
    }
  }

  /** Sealing the overflow first and the rest after it. */
  lemma OneRecordLess(c: Cipher, d: Direction, overflow: seq<seq<Byte>>, segments: seq<Segment>, status: Byte)
    requires |overflow| <= 1 && segments != []
    ensures var rest := if |segments| > 1 then [Rest(segments[1..]) + Closing(status)] else [];
            && (overflow == [] ==> overflow + rest == rest)
            && (overflow != [] ==>
                  && SealAll(c, d, overflow + rest) == c.seal(NonceOf(d), overflow[0]) + SealAll(c, Advance(d), rest)
                  && AdvanceBy(d, |overflow + rest|) == AdvanceBy(Advance(d), |rest|))
  {
    hide Rest, Closing;
    var rest := if |segments| > 1 then [Rest(segments[1..]) + Closing(status)] else [];
    if overflow != [] { assert (overflow + rest)[1..] == rest; }
  }

  lemma {:induction false} TrimNothing(segments: seq<Segment>)
    requires segments != [] && (|segments| > 1 ==> segments[|segments| - 1].data != [])
    ensures Trim(segments) == segments
  {
  }

  /** The input is this frame as it is laid out, sealed record by record under the next nonces, then `left`. */
  ghost predicate LaidOut(crc: Checksum, c: Cipher, d: Direction, input: seq<Byte>, frame: Frame, left: seq<Byte>,
                          status: Byte)
    requires 1 <= |frame.segments| <= 4
  {
    input == SealAll(c, d, Layout(Encode(crc, frame.tag, Describe(frame.segments)), frame.segments, status)) + left
  }

  /** A reader accepts nothing but the layout of a frame that can be written within the same limits; of the
      closing block it ignores the upper half of the first byte. */
  lemma AcceptedIsLaidOut(crc: Checksum, c: Cipher, d: Direction, input: seq<Byte>, limits: Limits)
    returns (status: Byte)
    requires Authentic(c) && Receive(crc, c, d, input, limits).Got?
    ensures var got := Receive(crc, c, d, input, limits);
            && Writable(d, got.frame, limits) && status % 16 == 0x0e
            && LaidOut(crc, c, d, input, got.frame, got.left, status)
            && got.after == AdvanceBy(d, RecordCount(Describe(got.frame.segments)))
  {
    hide Ideal, ReceiveFirst, Decode, Encode, Inline, Overflow, Rest, Padded, RestSize, Layout, Closing;
    var got := Receive(crc, c, d, input, limits);
    SealedIs(c, d, input, PRELUDE);
    var record := Open(c, d, input, PRELUDE);
    var first := record.plain;
    var (tag, ds) := Decode(crc, first[..SIZE]).value;
    EncodeDecode(crc, first[..SIZE]);
    status := FirstAccepted(c, record.after, record.left, tag, ds, first[SIZE..]);
    var segments := got.frame.segments;
    var records := RecordsClosed(crc, tag, segments, Closing(status));
    assert first == first[..SIZE] + first[SIZE..];
    assert records[0] == first;
    assert records[1..] == (if Padded(|segments[0].data|) > INLINE then [Overflow(segments[0].data)] else [])
        + (if |segments| > 1 then [Rest(segments[1..]) + Closing(status)] else []);
    assert input == c.seal(NonceOf(d), first) + (SealAll(c, Advance(d), records[1..]) + got.left);
    assert input == SealAll(c, d, records) + got.left;
    RecordsAre(crc, tag, segments, status);
    SaysWritable(d, got.frame, limits);
  }

  lemma SaysWritable(d: Direction, frame: Frame, limits: Limits)
    requires frame.segments != [] && Sayable(frame.tag, Describe(frame.segments))
    requires Allowed(Describe(frame.segments), limits) && Available(d, 1)
    requires Available(Advance(d), RecordCount(Describe(frame.segments)) - 1)
    ensures Writable(d, frame, limits)
  {
    hide Padded, RestSize, WireSize, ValidAlignment;
    var ds := Describe(frame.segments);
    assert |ds| > 1 ==> ds[|ds| - 1].length == |frame.segments[|ds| - 1].data|;
    TrimNothing(frame.segments);
  }

  /** Exactly these inputs are accepted, and each as one frame only. */
  lemma AcceptedExactly(crc: Checksum, c: Cipher, d: Direction, input: seq<Byte>, limits: Limits, frame: Frame,
                        left: seq<Byte>)
    requires Authentic(c) && Checks(crc)
    ensures (exists after :: Receive(crc, c, d, input, limits) == Got(frame, left, after))
            <==> Writable(d, frame, limits)
                 && exists status: Byte :: status % 16 == 0x0e && LaidOut(crc, c, d, input, frame, left, status)
  {
    hide Receive, SealAll, Layout, Encode, Ideal;
    if exists after :: Receive(crc, c, d, input, limits) == Got(frame, left, after) {
      var status := AcceptedIsLaidOut(crc, c, d, input, limits);
    }
    if Writable(d, frame, limits) {
      forall status: Byte | status % 16 == 0x0e && LaidOut(crc, c, d, input, frame, left, status)
        ensures exists after :: Receive(crc, c, d, input, limits) == Got(frame, left, after)
      {
        LaidOutAccepted(crc, c, d, input, limits, frame, left, status);
      }
    }
  }

  lemma LaidOutAccepted(crc: Checksum, c: Cipher, d: Direction, input: seq<Byte>, limits: Limits, frame: Frame,
                        left: seq<Byte>, status: Byte)
    requires Authentic(c) && Checks(crc) && Writable(d, frame, limits) && status % 16 == 0x0e
    requires LaidOut(crc, c, d, input, frame, left, status)
    ensures Receive(crc, c, d, input, limits) ==
              Got(frame, left, AdvanceBy(d, RecordCount(Describe(frame.segments))))
  {
    hide Receive, SealAll, Layout, Encode, Ideal, Checks, RecordCount, WireSize;
    RecordsAre(crc, frame.tag, frame.segments, status);
    assert Closes(Closing(status)) by { assert Closing(status)[1..] == Zeros(BLOCK - 1); }
    ReceivedClosed(crc, c, d, frame, limits, Closing(status), left);
  }

  // ---------------------------------------------------------------- what is sent

  /** The bytes of a laid out frame, with sixteen for the tag of each record. */
  function Measured(segments: seq<Segment>): (n: nat)
    requires segments != []
  {
    var first := |Block(segments[0].data)|;
    32 + 48 + 16 + (if first > 48 then first - 48 + 16 else 0)
    + (if |segments| > 1 then |Blocks(segments[1..])| + 16 + 16 else 0)
  }

  lemma {:induction false} DescribedSize(segments: seq<Segment>)
    ensures RestSize(Describe(segments)) == |Blocks(segments)|
  {
    RestIs(segments);
  }

  lemma MeasuredIs(segments: seq<Segment>)
    requires segments != []
    ensures WireSize(Describe(segments)) == Measured(segments)
  {
    hide RestSize, Blocks, Pad, Block;
    PadIs(segments[0].data);
    DescribedSize(segments[1..]);
    assert Describe(segments)[1..] == Describe(segments[1..]);
  }

  /** The frame is within the limits: one to four segments, a known tag, segments that the receiver allows and
      whose lengths fit in 32 bits, and no more bytes than allowed. */
  ghost predicate InLimits(frame: Frame, segments: seq<Segment>, limits: Limits) {
    && 1 <= |frame.segments| <= 4 && 1 <= frame.tag <= 20 && segments != []
    && (forall i :: 0 <= i < |segments| ==>
          && ValidAlignment(segments[i].alignment)
          && |segments[i].data| <= limits.maxSegment && |segments[i].data| <= 0xffff_ffff)
    && Measured(segments) <= limits.maxFrame && Measured(segments) <= 0x7fff_ffff_ffff_ffff
  }

  /** A frame is sent exactly if it is within the limits without its trailing empty segments and the counter
      does not run out under it; then it is on the wire as laid out, and complete. */
  lemma SentIs(crc: Checksum, c: Cipher, d: Direction, frame: Frame, limits: Limits)
    requires Ideal(c) && frame.segments != [] && d.counter <= MAX_UINT64
    ensures var segments := Trim(frame.segments);
            var sent := Send(crc, c, d, frame, limits);
            && (sent.Wire? <==>
                  InLimits(frame, segments, limits) && !d.exhausted
                  && d.counter + RecordCount(Describe(segments)) <= MAX_UINT64 + 1)
            && (sent.Wire? ==>
                  && |segments| <= 4 && |sent.bytes| == Measured(segments)
                  && LaidOut(crc, c, d, sent.bytes, Frame(frame.tag, segments), [], 0x0e))
  {
    hide SealAll, Encode, Measured, WireSize, Layout, Trim, Ideal, ValidAlignment, RecordCount;
    var segments := Trim(frame.segments);
    var ds := Describe(segments);
    MeasuredIs(segments);
    assert forall i :: 0 <= i < |ds| ==> ds[i] == Descriptor(|segments[i].data|, segments[i].alignment);
    assert InLimits(frame, segments, limits) ==> forall i :: 0 <= i < |segments| ==> ds[i].length <= MAX_UINT32;
    var sent := Send(crc, c, d, frame, limits);
    if sent.Wire? {
      RecordsAre(crc, frame.tag, segments, 0x0e);
      assert sent.bytes + [] == sent.bytes;
      WireIsSize(c, d, Records(crc, frame.tag, segments));
      TotalIs(crc, frame.tag, segments);
    }
  }

  lemma TotalIs(crc: Checksum, tag: Byte, segments: seq<Segment>)
    requires 1 <= |segments| <= 4
    ensures Total(Records(crc, tag, segments)) == Measured(segments)
  {
    hide Encode, Block, Blocks, Closing;
    RecordsAre(crc, tag, segments, 0x0e);
    var records := Records(crc, tag, segments);
    assert Total(records) == |records[0]| + 16 + Total(records[1..]);
    if |records| > 1 {
      assert Total(records[1..]) == |records[1]| + 16 + Total(records[1..][1..]);
      if |records| > 2 {
        assert records[1..][1..] == [records[2]];
        assert Total([records[2]]) == |records[2]| + 16 + Total([]);
      }
    }
  }

  // ---------------------------------------------------------------- the preamble, byte by byte

  /** Tag, number of segments, length and alignment of each in six bytes, little end first, zeros, and the
      checksum of all that, little end first. */
  lemma PreambleIs(crc: Checksum, tag: Byte, ds: seq<Descriptor>, i: nat)
    requires |ds| <= 4 && i < |ds|
    ensures var bytes := Encode(crc, tag, ds);
            && |bytes| == 32 && bytes[0] == tag && bytes[1] == |ds|
            && bytes[2 + 6 * i] == ds[i].length % 0x100
            && bytes[3 + 6 * i] == ds[i].length / 0x100 % 0x100
            && bytes[4 + 6 * i] == ds[i].length / 0x100 / 0x100 % 0x100
            && bytes[5 + 6 * i] == ds[i].length / 0x100 / 0x100 / 0x100 % 0x100
            && bytes[6 + 6 * i] == ds[i].alignment % 0x100
            && bytes[7 + 6 * i] == ds[i].alignment / 0x100 % 0x100
            && (forall k :: 2 + 6 * |ds| <= k < 28 ==> bytes[k] == 0)
            && bytes[28..] == Le(crc(0, bytes[..28]), 4)
  {
    hide Row, One;
    var bytes := Encode(crc, tag, ds);
    SlotUsed(crc, tag, ds, i);
    var slot := Slot(bytes, i);
    OneIs(ds[i]);
    forall k | 0 <= k < 6 ensures bytes[2 + 6 * i + k] == slot[k] { }
    assert bytes[..28] == Body(tag, ds);
  }

  lemma OneIs(d: Descriptor)
    ensures One(d) == [d.length % 0x100, d.length / 0x100 % 0x100, d.length / 0x100 / 0x100 % 0x100,
                       d.length / 0x100 / 0x100 / 0x100 % 0x100, d.alignment % 0x100, d.alignment / 0x100 % 0x100]
  {
    FourBytes(d.length);
    assert Le(d.alignment / 256, 1) == [d.alignment / 256 % 256] + Le(d.alignment / 256 / 256, 0);
    assert Le(d.alignment, 2) == [d.alignment % 256, d.alignment / 256 % 256];
  }

  lemma FourBytes(n: nat)
    ensures Le(n, 4) == [n % 0x100, n / 0x100 % 0x100, n / 0x100 / 0x100 % 0x100, n / 0x100 / 0x100 / 0x100 % 0x100]
  {
    var a, b, c := n / 256, n / 256 / 256, n / 256 / 256 / 256;
    assert Le(c, 1) == [c % 256] + Le(c / 256, 0);
    assert Le(b, 2) == [b % 256] + Le(c, 1);
    assert Le(a, 3) == [a % 256] + Le(b, 2);
  }
}
