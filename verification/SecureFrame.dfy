/** The secure frame: sealed records with counted nonces, and the reader that inverts it. */
module SecureFrame {
  import opened Common
  import opened Preamble

  const MAX_UINT32 := 0xffff_ffff
  const MAX_INT := 0x7fff_ffff_ffff_ffff
  const TAG := 16
  const BLOCK := 16
  const INLINE := 48
  const FIRST := SIZE + INLINE
  const PRELUDE := FIRST + TAG
  const COMPLETE: Byte := 0x0e

  datatype Segment = Segment(alignment: nat, data: seq<Byte>)
  datatype Frame = Frame(tag: Byte, segments: seq<Segment>)
  datatype Limits = Limits(maxSegment: nat, maxFrame: nat)

  /** A nonce: the fixed field of a direction and its counter. */
  datatype Nonce = Nonce(fixed: nat, counter: nat)

  /** Authenticated encryption under the connection's key. */
  datatype Cipher = Cipher(seal: (Nonce, seq<Byte>) -> seq<Byte>, open: (Nonce, seq<Byte>) -> Option<seq<Byte>>)

  /** Opening inverts sealing; sealing adds the tag. */
  ghost predicate Ideal(c: Cipher) {
    && (forall n, p :: |c.seal(n, p)| == |p| + TAG && c.open(n, c.seal(n, p)) == Some(p))
    && (forall n, x :: c.open(n, x).Some? ==> |c.open(n, x).value| + TAG == |x|)
  }

  // ---------------------------------------------------------------- directions

  datatype Direction = Direction(fixed: nat, counter: nat, exhausted: bool)

  predicate Available(d: Direction, count: nat) { count == 0 || (!d.exhausted && count - 1 <= MAX_UINT64 - d.counter) }

  function NonceOf(d: Direction): Nonce { Nonce(d.fixed, d.counter) }

  function Advance(d: Direction): (e: Direction) {
    if d.counter == MAX_UINT64 then d.(exhausted := true) else d.(counter := d.counter + 1)
  }

  function AdvanceBy(d: Direction, n: nat): (e: Direction)
    decreases n
  {
    if n == 0 then d else AdvanceBy(Advance(d), n - 1)
  }

  /** One direction came from another by using up counters. */
  predicate Onward(d: Direction, e: Direction) {
    && d.fixed == e.fixed && d.counter <= e.counter <= MAX_UINT64
    && (d.exhausted ==> e == d) && (e.exhausted ==> e.counter == MAX_UINT64)
  }

  /** The counters used up between the two. */
  function Between(d: Direction, e: Direction): (counters: seq<nat>)
    requires Onward(d, e)
  {
    var n := e.counter - d.counter + if e.exhausted && !d.exhausted then 1 else 0;
    seq(n, i requires 0 <= i < n => d.counter + i)
  }

  lemma BetweenNone(d: Direction)
    requires Onward(d, d)
    ensures Between(d, d) == []
  {
  }

  lemma BetweenOne(d: Direction)
    requires d.counter <= MAX_UINT64 && !d.exhausted
    ensures Onward(d, Advance(d)) && Between(d, Advance(d)) == [d.counter]
  {
  }

  lemma BetweenJoin(a: Direction, b: Direction, c: Direction)
    requires Onward(a, b) && Onward(b, c)
    ensures Onward(a, c) && Between(a, b) + Between(b, c) == Between(a, c)
  {
  }

  // ---------------------------------------------------------------- layout

  function Padded(n: nat): (p: nat)
    ensures n <= p < n + BLOCK && p % BLOCK == 0
  {
    (n + BLOCK - 1) / BLOCK * BLOCK
  }

  function Pad(data: seq<Byte>): (p: seq<Byte>)
    ensures |p| == Padded(|data|)
  {
    data + Zeros(Padded(|data|) - |data|)
  }

  /** Trailing empty segments are not sent; the first segment always is. */
  function Trim(segments: seq<Segment>): (r: seq<Segment>)
    requires segments != []
    ensures r != [] && r <= segments && (|r| > 1 ==> r[|r| - 1].data != [])
  {
    if |segments| > 1 && segments[|segments| - 1].data == [] then Trim(segments[..|segments| - 1]) else segments
  }

  function Describe(segments: seq<Segment>): (ds: seq<Descriptor>)
    ensures |ds| == |segments|
  {
    seq(|segments|, i requires 0 <= i < |segments| => Descriptor(|segments[i].data|, segments[i].alignment))
  }

  predicate ValidAlignment(a: nat) {
    a in {1, 2, 4, 8, 16, 32, 64, 128, 256, 512, 1024, 2048, 4096, 8192, 16384, 32768}
  }

  /** The bytes of the segments after the first, padded. */
  function RestSize(ds: seq<Descriptor>): (n: nat) { if ds == [] then 0 else Padded(ds[0].length) + RestSize(ds[1..]) }

  function OverflowSize(ds: seq<Descriptor>): (n: nat)
    requires ds != []
  {
    if Padded(ds[0].length) > INLINE then Padded(ds[0].length) - INLINE else 0
  }

  function WireSize(ds: seq<Descriptor>): (n: nat)
    requires ds != []
  {
    PRELUDE + (if OverflowSize(ds) > 0 then OverflowSize(ds) + TAG else 0)
        + (if |ds| > 1 then RestSize(ds[1..]) + BLOCK + TAG else 0)
  }

  function RecordCount(ds: seq<Descriptor>): (n: nat)
    requires ds != []
    ensures 1 <= n <= 3
  {
    1 + (if OverflowSize(ds) > 0 then 1 else 0) + (if |ds| > 1 then 1 else 0)
  }

  /** The descriptors are within the limits. */
  predicate Allowed(ds: seq<Descriptor>, limits: Limits)
    requires ds != []
  {
    && (forall i :: 0 <= i < |ds| ==> ValidAlignment(ds[i].alignment) && ds[i].length <= limits.maxSegment)
    && WireSize(ds) <= limits.maxFrame && WireSize(ds) <= MAX_INT
  }

  function Inline(data: seq<Byte>): (r: seq<Byte>)
    ensures |r| == INLINE
  {
    if |data| >= INLINE then data[..INLINE] else data + Zeros(INLINE - |data|)
  }

  function Overflow(data: seq<Byte>): (r: seq<Byte>)
    requires Padded(|data|) > INLINE
    ensures |r| == Padded(|data|) - INLINE
  {
    Pad(data)[INLINE..]
  }

  function Rest(segments: seq<Segment>): (r: seq<Byte>)
    ensures |r| == RestSize(Describe(segments))
  {
    if segments == [] then [] else
      assert Describe(segments)[1..] == Describe(segments[1..]);
      Pad(segments[0].data) + Rest(segments[1..])
  }

  const EPILOGUE: seq<Byte> := [COMPLETE] + Zeros(BLOCK - 1)

  /** The plaintext records of a frame that ends in the given block. */
  function RecordsClosed(crc: Checksum, tag: Byte, segments: seq<Segment>, closing: seq<Byte>): (r: seq<seq<Byte>>)
    requires 1 <= |segments| <= MAX_SEGMENTS
    ensures |r| == RecordCount(Describe(segments))
  {
    var first := segments[0].data;
    [Encode(crc, tag, Describe(segments)) + Inline(first)]
    + (if Padded(|first|) > INLINE then [Overflow(first)] else [])
    + (if |segments| > 1 then [Rest(segments[1..]) + closing] else [])
  }

  function Records(crc: Checksum, tag: Byte, segments: seq<Segment>): (r: seq<seq<Byte>>)
    requires 1 <= |segments| <= MAX_SEGMENTS
    ensures |r| == RecordCount(Describe(segments))
  {
    RecordsClosed(crc, tag, segments, EPILOGUE)
  }

  function SealAll(c: Cipher, d: Direction, records: seq<seq<Byte>>): (wire: seq<Byte>)
    decreases |records|
  {
    if records == [] then [] else c.seal(NonceOf(d), records[0]) + SealAll(c, Advance(d), records[1..])
  }

  // ---------------------------------------------------------------- sending and receiving

  datatype Sent = Wire(bytes: seq<Byte>, after: Direction) | Unsent

  predicate Sendable(frame: Frame, limits: Limits) {
    && 1 <= |frame.segments| <= MAX_SEGMENTS && ValidTag(frame.tag)
    && var ds := Describe(Trim(frame.segments));
    Allowed(ds, limits) && forall i :: 0 <= i < |ds| ==> ds[i].length <= MAX_UINT32
  }

  /** A frame on the wire. A frame that cannot be sent uses up no nonce. */
  function Send(crc: Checksum, c: Cipher, d: Direction, frame: Frame, limits: Limits): (r: Sent) {
    if !Sendable(frame, limits) then Unsent
    else
      var segments := Trim(frame.segments);
      var count := RecordCount(Describe(segments));
      if !Available(d, count) then Unsent
      else Wire(SealAll(c, d, Records(crc, frame.tag, segments)), AdvanceBy(d, count))
  }

  /** What a reader gets: a frame with the input left, or nothing; and its direction afterwards. */
  datatype Received = Got(frame: Frame, left: seq<Byte>, after: Direction) | Lost(after: Direction)

  /** Opens the next `size` bytes of input as one record. */
  datatype Opened = Opened(plain: seq<Byte>, left: seq<Byte>, after: Direction) | Short(after: Direction)

  function Open(c: Cipher, d: Direction, input: seq<Byte>, size: nat): (r: Opened) {
    if |input| < size then Short(d)
    else match c.open(NonceOf(d), input[..size])
      case None => Short(Advance(d))
      case Some(plain) => Opened(plain, input[size..], Advance(d))
  }

  function Receive(crc: Checksum, c: Cipher, d: Direction, input: seq<Byte>, limits: Limits): (r: Received)
    requires Ideal(c)
  {
    if !Available(d, 1) || limits.maxFrame < PRELUDE then Lost(d)
    else match Open(c, d, input, PRELUDE)
      case Short(after) => Lost(after)
      case Opened(first, left, after) =>
        match Decode(crc, first[..SIZE])
        case None => Lost(after)
        case Some((tag, ds)) =>
          if !Allowed(ds, limits) || !Available(after, RecordCount(ds) - 1) then Lost(after)
          else ReceiveFirst(c, after, left, tag, ds, first[SIZE..])
  }

  /** The first segment: inline, or continued in a record of its own. */
  function ReceiveFirst(c: Cipher, d: Direction, input: seq<Byte>, tag: Byte, ds: seq<Descriptor>,
                        inline: seq<Byte>): (r: Received)
    requires Ideal(c) && ds != [] && |inline| == INLINE
  {
    if OverflowSize(ds) == 0 then ReceiveRest(c, d, input, tag, ds, inline)
    else match Open(c, d, input, OverflowSize(ds) + TAG)
      case Short(after) => Lost(after)
      case Opened(more, left, after) => ReceiveRest(c, after, left, tag, ds, inline + more)
  }

  function ReceiveRest(c: Cipher, d: Direction, input: seq<Byte>, tag: Byte, ds: seq<Descriptor>,
                       padded: seq<Byte>): (r: Received)
    requires Ideal(c) && ds != [] && ds[0].length <= |padded|
  {
    var n := ds[0].length;
    var first := Segment(ds[0].alignment, padded[..n]);
    if !AllZero(padded[n..]) then Lost(d)
    else if |ds| == 1 then Got(Frame(tag, [first]), input, d)
    else match Open(c, d, input, RestSize(ds[1..]) + BLOCK + TAG)
      case Short(after) => Lost(after)
      case Opened(rest, left, after) =>
        match Split(rest, ds[1..])
        case None => Lost(after)
        case Some((segments, tail)) =>
          if !AllZero(tail[1..]) || tail[0] % 16 != COMPLETE then Lost(after)
          else Got(Frame(tag, [first] + segments), left, after)
  }

  /** Cuts padded segments off; what is left is the epilogue. */
  function Split(bytes: seq<Byte>, ds: seq<Descriptor>): (r: Option<(seq<Segment>, seq<Byte>)>)
    requires |bytes| == RestSize(ds) + BLOCK
    ensures r.Some? ==> |r.value.1| == BLOCK && |r.value.0| == |ds|
    decreases |ds|
  {
    if ds == [] then Some(([], bytes))
    else
      var n, p := ds[0].length, Padded(ds[0].length);
      if !AllZero(bytes[n..p]) then None
      else match Split(bytes[p..], ds[1..])
        case None => None
        case Some((segments, tail)) => Some(([Segment(ds[0].alignment, bytes[..n])] + segments, tail))
  }

  // ---------------------------------------------------------------- what was sent is received

  lemma SealOpens(c: Cipher, d: Direction, record: seq<Byte>, more: seq<Byte>, size: nat)
    requires Ideal(c) && size == |record| + TAG
    ensures Open(c, d, c.seal(NonceOf(d), record) + more, size) == Opened(record, more, Advance(d))
  {
    var sealed := c.seal(NonceOf(d), record);
    assert (sealed + more)[..size] == sealed && (sealed + more)[size..] == more;
  }

  lemma PadCuts(data: seq<Byte>, more: seq<Byte>)
    ensures var n, p, bytes := |data|, Padded(|data|), Pad(data) + more;
            bytes[..n] == data && AllZero(bytes[n..p]) && bytes[p..] == more
  {
    hide Padded;
    var n, p, bytes := |data|, Padded(|data|), Pad(data) + more;
    assert bytes[..n] == data;
    assert bytes[p..] == more;
    forall i | 0 <= i < p - n ensures bytes[n..p][i] == 0 { assert bytes[n..p][i] == Pad(data)[n + i]; }
  }

  lemma SplitOne(segment: Segment, more: seq<Byte>, ds: seq<Descriptor>, segments: seq<Segment>, tail: seq<Byte>)
    requires |more| == RestSize(ds) + BLOCK && Split(more, ds) == Some((segments, tail))
    ensures var all := [Descriptor(|segment.data|, segment.alignment)] + ds;
            && |Pad(segment.data) + more| == RestSize(all) + BLOCK
            && Split(Pad(segment.data) + more, all) == Some(([segment] + segments, tail))
  {
    hide Padded, Pad;
    var all := [Descriptor(|segment.data|, segment.alignment)] + ds;
    assert all[1..] == ds && all[0].length == |segment.data|;
    PadCuts(segment.data, more);
  }

  lemma {:induction false} SplitRest(segments: seq<Segment>, tail: seq<Byte>)
    requires |tail| == BLOCK
    ensures Split(Rest(segments) + tail, Describe(segments)) == Some((segments, tail))
  {
    hide Padded, Pad, Split, RestSize;
    if segments == [] {
      assert Rest(segments) + tail == tail;
      SplitNone(tail);
    } else {
      SplitRest(segments[1..], tail);
      SplitOne(segments[0], Rest(segments[1..]) + tail, Describe(segments[1..]), segments[1..], tail);
      assert Describe(segments) == [Descriptor(|segments[0].data|, segments[0].alignment)] + Describe(segments[1..]);
      assert Rest(segments) + tail == Pad(segments[0].data) + (Rest(segments[1..]) + tail);
      assert segments == [segments[0]] + segments[1..];
    }
  }

  lemma SplitNone(tail: seq<Byte>)
    requires |tail| == BLOCK
    ensures RestSize([]) == 0 && Split(tail, []) == Some(([], tail)) && Describe([]) == []
  {
  }

  /** The inline part and the rest of the first segment are its padded bytes. */
  lemma FirstJoins(data: seq<Byte>)
    ensures var padded := Inline(data) + (if Padded(|data|) > INLINE then Overflow(data) else []);
            |data| <= |padded| && padded[..|data|] == data && AllZero(padded[|data|..])
  {
    if Padded(|data|) > INLINE {
      assert |data| > INLINE - BLOCK;
      var padded := Inline(data) + Overflow(data);
      forall i | 0 <= i < |data| ensures padded[i] == data[i] { }
      assert padded[..|data|] == data;
    } else {
      assert |data| <= INLINE;
      assert Inline(data)[..|data|] == data;
      assert Inline(data) + [] == Inline(data);
    }
  }

  /** A closing block that a reader takes for that of a complete frame. */
  predicate Closes(closing: seq<Byte>) {
    |closing| == BLOCK && AllZero(closing[1..]) && closing[0] % 16 == COMPLETE
  }

  lemma RestReceived(c: Cipher, d: Direction, tag: Byte, segments: seq<Segment>, closing: seq<Byte>,
                     padded: seq<Byte>, more: seq<Byte>)
    requires Ideal(c) && segments != [] && Closes(closing)
    requires |segments[0].data| <= |padded| && padded[..|segments[0].data|] == segments[0].data
             && AllZero(padded[|segments[0].data|..])
    ensures var records := if |segments| > 1 then [Rest(segments[1..]) + closing] else [];
            ReceiveRest(c, d, SealAll(c, d, records) + more, tag, Describe(segments), padded)
            == Got(Frame(tag, segments), more, AdvanceBy(d, |records|))
  {
    hide Ideal, Rest, Split, RestSize;
    var ds := Describe(segments);
    assert segments == [segments[0]] + segments[1..];
    if |segments| > 1 {
      var record := Rest(segments[1..]) + closing;
      assert ds[1..] == Describe(segments[1..]);
      SealOne(c, d, record);
      SealOpens(c, d, record, more, |record| + TAG);
      SplitRest(segments[1..], closing);
      assert AdvanceBy(d, 1) == Advance(d) by { AdvanceOne(d); }
    } else {
      assert SealAll(c, d, []) + more == more;
    }
  }

  lemma AdvanceOne(d: Direction)
    ensures AdvanceBy(d, 1) == Advance(d)
  {
    assert AdvanceBy(Advance(d), 0) == Advance(d);
  }

  lemma SealOne(c: Cipher, d: Direction, record: seq<Byte>)
    ensures SealAll(c, d, [record]) == c.seal(NonceOf(d), record)
  {
    assert [record][1..] == [];
    assert SealAll(c, Advance(d), []) == [];
  }

  lemma FirstReceived(c: Cipher, d: Direction, tag: Byte, segments: seq<Segment>, closing: seq<Byte>, more: seq<Byte>)
    requires Ideal(c) && segments != [] && Closes(closing)
    ensures var records := (if Padded(|segments[0].data|) > INLINE then [Overflow(segments[0].data)] else [])
                           + (if |segments| > 1 then [Rest(segments[1..]) + closing] else []);
            ReceiveFirst(c, d, SealAll(c, d, records) + more, tag, Describe(segments), Inline(segments[0].data))
            == Got(Frame(tag, segments), more, AdvanceBy(d, |records|))
  {
    hide Ideal, Rest, Padded, Inline, Overflow, ReceiveRest, RestSize, Closes;
    var data := segments[0].data;
    var tail := if |segments| > 1 then [Rest(segments[1..]) + closing] else [];
    FirstJoins(data);
    if Padded(|data|) > INLINE {
      var records := [Overflow(data)] + tail;
      assert records[1..] == tail;
      var sealed := c.seal(NonceOf(d), Overflow(data));
      assert SealAll(c, d, records) + more == sealed + (SealAll(c, Advance(d), tail) + more);
      SealOpens(c, d, Overflow(data), SealAll(c, Advance(d), tail) + more, |Overflow(data)| + TAG);
      RestReceived(c, Advance(d), tag, segments, closing, Inline(data) + Overflow(data), more);
    } else {
      assert [] + tail == tail && Inline(data) + [] == Inline(data);
      RestReceived(c, d, tag, segments, closing, Inline(data), more);
    }
  }

  lemma Announces(frame: Frame, limits: Limits)
    requires Sendable(frame, limits)
    ensures Sayable(frame.tag, Describe(Trim(frame.segments)))
  {
  }

  /** A frame can be written as it is: nothing is trimmed off and there are nonces for it. */
  predicate Writable(d: Direction, frame: Frame, limits: Limits) {
    && Sendable(frame, limits) && Trim(frame.segments) == frame.segments
    && Available(d, RecordCount(Describe(frame.segments)))
  }

  lemma ReceivedClosed(crc: Checksum, c: Cipher, d: Direction, frame: Frame, limits: Limits, closing: seq<Byte>,
                       more: seq<Byte>)
    requires Ideal(c) && Checks(crc) && Writable(d, frame, limits) && Closes(closing)
    ensures var records := RecordsClosed(crc, frame.tag, frame.segments, closing);
            Receive(crc, c, d, SealAll(c, d, records) + more, limits) == Got(frame, more, AdvanceBy(d, |records|))
  {
    hide Ideal, Decode, Encode, ReceiveFirst, Rest, Overflow, Inline, Trim, Sayable, Padded, RestSize, Closes;
    var segments := frame.segments;
    var ds, first := Describe(segments), segments[0].data;
    var tail := (if Padded(|first|) > INLINE then [Overflow(first)] else [])
                + (if |segments| > 1 then [Rest(segments[1..]) + closing] else []);
    var head := Encode(crc, frame.tag, ds) + Inline(first);
    var records := RecordsClosed(crc, frame.tag, segments, closing);
    assert records == [head] + tail && records[1..] == tail;
    var sealed := c.seal(NonceOf(d), head);
    assert SealAll(c, d, records) + more == sealed + (SealAll(c, Advance(d), tail) + more);
    SealOpens(c, d, head, SealAll(c, Advance(d), tail) + more, PRELUDE);
    Announces(frame, limits);
    DecodeEncode(crc, frame.tag, ds);
    assert head[..SIZE] == Encode(crc, frame.tag, ds) && head[SIZE..] == Inline(first);
    AvailableLess(d, RecordCount(ds));
    FirstReceived(c, Advance(d), frame.tag, segments, closing, more);
    assert |tail| == RecordCount(ds) - 1;
  }

  lemma {:induction false} TrimTwice(segments: seq<Segment>)
    requires segments != []
    ensures Trim(Trim(segments)) == Trim(segments)
  {
    if |segments| > 1 && segments[|segments| - 1].data == [] { TrimTwice(segments[..|segments| - 1]); }
  }

  /** Under an ideal cipher and the same limits, the reader gets the frame that was sent, up to
      trailing empty segments, leaves what follows it, and both ends have used the same nonces. */
  lemma ReceivedAsSent(crc: Checksum, c: Cipher, d: Direction, frame: Frame, limits: Limits, more: seq<Byte>)
    requires Ideal(c) && Checks(crc) && Send(crc, c, d, frame, limits).Wire?
    ensures var sent := Send(crc, c, d, frame, limits);
            Receive(crc, c, d, sent.bytes + more, limits) ==
                Got(Frame(frame.tag, Trim(frame.segments)), more, sent.after)
  {
    hide Ideal, Encode, Rest, Overflow, Inline, Padded, RestSize, Trim, SealAll;
    var whole := Frame(frame.tag, Trim(frame.segments));
    TrimTwice(frame.segments);
    ReceivedClosed(crc, c, d, whole, limits, EPILOGUE, more);
  }

  /** Frames sent one after another; all of them can be sent. */
  function SendAll(crc: Checksum, c: Cipher, d: Direction, frames: seq<Frame>, limits: Limits): (r: Sent)
    decreases |frames|
  {
    if frames == [] then Wire([], d)
    else match Send(crc, c, d, frames[0], limits)
      case Unsent => Unsent
      case Wire(bytes, after) =>
        match SendAll(crc, c, after, frames[1..], limits)
        case Unsent => Unsent
        case Wire(more, end) => Wire(bytes + more, end)
  }

  datatype Heard = Heard(frames: seq<Frame>, left: seq<Byte>, after: Direction) | Broken

  function ReceiveAll(crc: Checksum, c: Cipher, d: Direction, input: seq<Byte>, count: nat, limits: Limits): (r: Heard)
    requires Ideal(c)
    decreases count
  {
    if count == 0 then Heard([], input, d)
    else match Receive(crc, c, d, input, limits)
      case Lost(_) => Broken
      case Got(frame, left, after) =>
        match ReceiveAll(crc, c, after, left, count - 1, limits)
        case Broken => Broken
        case Heard(frames, rest, end) => Heard([frame] + frames, rest, end)
  }

  function Trimmed(frames: seq<Frame>): (r: seq<Frame>)
    requires forall i :: 0 <= i < |frames| ==> frames[i].segments != []
    ensures |r| == |frames|
  {
    seq(|frames|, i requires 0 <= i < |frames| => Frame(frames[i].tag, Trim(frames[i].segments)))
  }

  lemma {:induction false} AllSendable(crc: Checksum, c: Cipher, d: Direction, frames: seq<Frame>, limits: Limits,
                                       i: nat)
    requires SendAll(crc, c, d, frames, limits).Wire? && i < |frames|
    ensures frames[i].segments != []
    decreases |frames|
  {
    hide SealAll, Records, Trim, WireSize;
    if i > 0 { AllSendable(crc, c, Send(crc, c, d, frames[0], limits).after, frames[1..], limits, i - 1); }
  }

  /** A whole conversation is heard as it was said, in order, with both counters in step. */
  lemma {:induction false} ConversationHeard(crc: Checksum, c: Cipher, d: Direction, frames: seq<Frame>,
                                             limits: Limits, more: seq<Byte>)
    requires Ideal(c) && Checks(crc) && SendAll(crc, c, d, frames, limits).Wire?
    requires forall i :: 0 <= i < |frames| ==> frames[i].segments != []
    ensures var sent := SendAll(crc, c, d, frames, limits);
            ReceiveAll(crc, c, d, sent.bytes + more, |frames|, limits) == Heard(Trimmed(frames), more, sent.after)
    decreases |frames|
  {
    hide Send, Receive, Ideal, Trim;
    var sent := SendAll(crc, c, d, frames, limits);
    if frames == [] {
      assert sent.bytes + more == more;
    } else {
      var first := Send(crc, c, d, frames[0], limits);
      var rest := SendAll(crc, c, first.after, frames[1..], limits);
      assert sent.bytes + more == first.bytes + (rest.bytes + more);
      ReceivedAsSent(crc, c, d, frames[0], limits, rest.bytes + more);
      ConversationHeard(crc, c, first.after, frames[1..], limits, more);
      assert Trimmed(frames) == [Frame(frames[0].tag, Trim(frames[0].segments))] + Trimmed(frames[1..]);
    }
  }

  lemma AvailableLess(d: Direction, n: nat)
    requires n > 0 && Available(d, n)
    ensures Available(d, 1) && Available(Advance(d), n - 1)
  {
  }

  /** How many records the frames are sent in. */
  function RecordsIn(frames: seq<Frame>): (n: nat)
    requires forall i :: 0 <= i < |frames| ==> frames[i].segments != []
  {
    if frames == [] then 0 else RecordCount(Describe(Trim(frames[0].segments))) + RecordsIn(frames[1..])
  }

  lemma {:induction false} AdvanceTwice(d: Direction, m: nat, n: nat)
    ensures AdvanceBy(AdvanceBy(d, m), n) == AdvanceBy(d, m + n)
    decreases m
  {
    if m > 0 { AdvanceTwice(Advance(d), m - 1, n); }
  }

  lemma {:induction false} AvailableTwice(d: Direction, m: nat, n: nat)
    requires d.counter <= MAX_UINT64 && Available(d, m) && Available(AdvanceBy(d, m), n)
    ensures Available(d, m + n)
    decreases m
  {
    if m > 0 && n > 0 {
      AvailableLess(d, m);
      AvailableTwice(Advance(d), m - 1, n);
    }
  }

  /** A conversation that is sent uses up one counter for each of its records, and has them. */
  lemma {:induction false} ConversationSpends(crc: Checksum, c: Cipher, d: Direction, frames: seq<Frame>,
                                              limits: Limits)
    requires SendAll(crc, c, d, frames, limits).Wire? && d.counter <= MAX_UINT64
    requires forall i :: 0 <= i < |frames| ==> frames[i].segments != []
    ensures Available(d, RecordsIn(frames))
            && SendAll(crc, c, d, frames, limits).after == AdvanceBy(d, RecordsIn(frames))
    decreases |frames|
  {
    hide SealAll, Records, Sendable, RecordCount, Describe, Trim;
    if frames != [] {
      var n := RecordCount(Describe(Trim(frames[0].segments)));
      var after := AdvanceBy(d, n);
      Bounded(d, n);
      ConversationSpends(crc, c, after, frames[1..], limits);
      AdvanceTwice(d, n, RecordsIn(frames[1..]));
      AvailableTwice(d, n, RecordsIn(frames[1..]));
    }
  }

  lemma {:induction false} Bounded(d: Direction, n: nat)
    requires d.counter <= MAX_UINT64
    ensures AdvanceBy(d, n).counter <= MAX_UINT64
    decreases n
  {
    if n > 0 { Bounded(Advance(d), n - 1); }
  }

  /** The nonce of each record of a conversation, counted from its beginning. */
  lemma {:induction false} NonceAt(d: Direction, n: nat, i: nat)
    requires Available(d, n) && i < n
    ensures NonceOf(AdvanceBy(d, i)) == Nonce(d.fixed, d.counter + i)
    decreases i
  {
    if i > 0 {
      AvailableLess(d, n);
      NonceAt(Advance(d), n - 1, i - 1);
    }
  }

  /** No two records of a whole conversation are sealed under the same nonce. */
  lemma NoncesDiffer(crc: Checksum, c: Cipher, d: Direction, frames: seq<Frame>, limits: Limits, i: nat, j: nat)
    requires SendAll(crc, c, d, frames, limits).Wire? && d.counter <= MAX_UINT64
    requires forall k :: 0 <= k < |frames| ==> frames[k].segments != []
    requires i < j < RecordsIn(frames)
    ensures NonceOf(AdvanceBy(d, i)) != NonceOf(AdvanceBy(d, j))
  {
    hide SendAll, RecordsIn, AdvanceBy;
    ConversationSpends(crc, c, d, frames, limits);
    NonceAt(d, RecordsIn(frames), i);
    NonceAt(d, RecordsIn(frames), j);
  }

  lemma {:induction false} WireIsSize(c: Cipher, d: Direction, records: seq<seq<Byte>>)
    requires Ideal(c)
    ensures |SealAll(c, d, records)| == Total(records)
    decreases |records|
  {
    if records != [] { WireIsSize(c, Advance(d), records[1..]); }
  }

  function Total(records: seq<seq<Byte>>): (n: nat) {
    if records == [] then 0 else |records[0]| + TAG + Total(records[1..])
  }
}
