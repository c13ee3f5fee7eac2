/** The secure codec as it runs: nonces that count up, frames filled and sealed in place, and
    leased payloads that carry their own padding. */
module SecureCodec {
  import opened Common
  import opened Preamble
  import opened SecureFrame

  // ---------------------------------------------------------------- nonces

  /** One direction of a connection. */
  class SecureDirection {
    const c: Cipher
    const fixed: nat
    var counter: nat
    var exhausted: bool
    /** The counters used so far, in order. */
    ghost var used: seq<nat>

    constructor (c: Cipher, fixed: nat, counter: nat)
      requires counter <= MAX_UINT64
      ensures Valid() && this.c == c && Value() == Direction(fixed, counter, false) && used == []
    {
      this.c, this.fixed, this.counter, exhausted, used := c, fixed, counter, false, [];
    }

    function Value(): Direction
      reads this
    {
      Direction(fixed, counter, exhausted)
    }

    /** Counters only ever grew, and the next one is beyond them all unless there is none. */
    ghost predicate Valid()
      reads this
    {
      && counter <= MAX_UINT64 && (exhausted ==> counter == MAX_UINT64)
      && (forall i, j :: 0 <= i < j < |used| ==> used[i] < used[j])
      && (forall i :: 0 <= i < |used| ==> if exhausted then used[i] <= counter else used[i] < counter)
    }

    /** Since `before`, every counter that was used up was added to `was`, once and in order. */
    ghost predicate Spent(before: Direction, was: seq<nat>)
      reads this
    {
      Onward(before, Value()) && used == was + Between(before, Value())
    }

    /** Nothing was used up. */
    lemma SpentNone()
      requires Valid()
      ensures Spent(Value(), used)
    {
      BetweenNone(Value());
    }

    /** What was used up until `middle` and since makes up all. */
    lemma SpentOn(before: Direction, was: seq<nat>, middle: Direction, thus: seq<nat>)
      requires Onward(before, middle) && thus == was + Between(before, middle) && Spent(middle, thus)
      ensures Spent(before, was)
    {
      BetweenJoin(before, middle, Value());
    }

    predicate HasLeft(count: nat)
      reads this
    {
      count == 0 || (!exhausted && count - 1 <= MAX_UINT64 - counter)
    }

    /** The next nonce, which this direction has never used before. */
    method Next() returns (nonce: Option<Nonce>)
      requires Valid()
      modifies this
      ensures Valid() && nonce.Some? == old(HasLeft(1))
      ensures nonce.None? ==> Value() == old(Value()) && used == old(used)
      ensures nonce.Some? ==>
                && nonce.value == NonceOf(old(Value())) && nonce.value.counter !in old(used)
                && used == old(used) + [nonce.value.counter] && Value() == Advance(old(Value()))
      ensures Spent(old(Value()), old(used))
    {
      if !HasLeft(1) {
        SpentNone();
        return None;
      }
      BetweenOne(Value());
      nonce := Some(Nonce(fixed, counter));
      used := used + [counter];
      if counter == MAX_UINT64 { exhausted := true; } else { counter := counter + 1; }
    }

    /** Seals the plaintext at `at` in place; the tag follows it. */
    method SealAt(wire: array<Byte>, at: nat, size: nat)
      requires Valid() && Ideal(c) && HasLeft(1) && at + size + TAG <= wire.Length
      modifies this, wire
      ensures Valid() && Value() == Advance(old(Value())) && Spent(old(Value()), old(used))
      ensures wire[..at] == old(wire[..at])
      ensures wire[at..at + size + TAG] == c.seal(NonceOf(old(Value())), old(wire[at..at + size]))
    {
      var nonce := Next();
      var sealed := c.seal(nonce.value, wire[at..at + size]);
      Store(wire, at, sealed);
    }
  }

  // ---------------------------------------------------------------- buffers

  /** Bytes with `data` written over them at `at`. */
  function Splice(bytes: seq<Byte>, at: nat, data: seq<Byte>): (r: seq<Byte>)
    requires at + |data| <= |bytes|
    ensures |r| == |bytes|
  {
    bytes[..at] + data + bytes[at + |data|..]
  }

  method Store(wire: array<Byte>, at: nat, data: seq<Byte>)
    requires at + |data| <= wire.Length
    modifies wire
    ensures wire[at..at + |data|] == data
    ensures wire[..at] == old(wire[..at]) && wire[at + |data|..] == old(wire[at + |data|..])
    ensures wire[..] == Splice(old(wire[..]), at, data)
  {
    var i := 0;
    while i < |data|
      invariant 0 <= i <= |data| && wire[at..at + i] == data[..i]
      invariant wire[..at] == old(wire[..at]) && wire[at + |data|..] == old(wire[at + |data|..])
    {
      wire[at + i] := data[i];
      i := i + 1;
    }
    assert wire[..] == wire[..at] + wire[at..at + |data|] + wire[at + |data|..];
  }

  method ClearRange(wire: array<Byte>, from: nat, to: nat)
    requires from <= to <= wire.Length
    modifies wire
    ensures wire[from..to] == Zeros(to - from)
    ensures wire[..from] == old(wire[..from]) && wire[to..] == old(wire[to..])
    ensures wire[..] == Splice(old(wire[..]), from, Zeros(to - from))
  {
    Store(wire, from, Zeros(to - from));
  }

  /** Writes a segment and clears its padding. */
  method StorePadded(wire: array<Byte>, at: nat, data: seq<Byte>)
    requires at + Padded(|data|) <= wire.Length
    modifies wire
    ensures wire[at..at + Padded(|data|)] == Pad(data)
    ensures wire[..at] == old(wire[..at]) && wire[at + Padded(|data|)..] == old(wire[at + Padded(|data|)..])
  {
    hide Padded, Pad;
    ghost var was := wire[..];
    Store(wire, at, data);
    Store(wire, at + |data|, Zeros(Padded(|data|) - |data|));
    var end := at + Padded(|data|);
    ghost var now := wire[..];
    PaddedOver(was, at, data);
    assert wire[at..end] == now[at..end] && wire[..at] == now[..at] && wire[end..] == now[end..];
    assert old(wire[..at]) == was[..at] && old(wire[end..]) == was[end..];
  }

  lemma PaddedOver(was: seq<Byte>, at: nat, data: seq<Byte>)
    requires at + Padded(|data|) <= |was|
    ensures var end := at + Padded(|data|);
            var now := Splice(Splice(was, at, data), at + |data|, Zeros(Padded(|data|) - |data|));
            now[at..end] == Pad(data) && now[..at] == was[..at] && now[end..] == was[end..]
  {
    hide Padded;
    var end := at + Padded(|data|);
    var now := Splice(Splice(was, at, data), at + |data|, Zeros(Padded(|data|) - |data|));
    forall k | 0 <= k < end - at ensures now[at..end][k] == Pad(data)[k] { assert now[at..end][k] == now[at + k]; }
    forall k | end <= k < |was| ensures now[k] == was[k] { }
  }

  lemma {:induction false} RestMore(segments: seq<Segment>, segment: Segment)
    ensures Rest(segments + [segment]) == Rest(segments) + Pad(segment.data)
  {
    hide Pad, Padded;
    if segments == [] {
      assert segments + [segment] == [segment] && Rest([segment][1..]) == [];
      assert Rest([segment]) == Pad(segment.data) + Rest([segment][1..]);
    } else {
      RestMore(segments[1..], segment);
      assert (segments + [segment])[1..] == segments[1..] + [segment];
    }
  }

  // ---------------------------------------------------------------- leased payloads

  const PREFIX := 1024

  /** A payload in storage of its own, with room before it for the segments that precede it and
      the end of the frame after it. */
  class PaddedLease {
    const storage: array<Byte>

    /** Finishes the storage of a payload that lies behind the prefix. */
    constructor (storage: array<Byte>, size: nat)
      requires 0 < size && size % BLOCK == 0 && storage.Length == PREFIX + size + BLOCK
      modifies storage
      ensures this.storage == storage && Ended()
      ensures storage[..PREFIX + size] == old(storage[..PREFIX + size])
    {
      this.storage := storage;
      new;
      ClearRange(storage, storage.Length - BLOCK, storage.Length);
      ghost var before := storage[..PREFIX + size];
      storage[storage.Length - BLOCK] := COMPLETE;
      assert storage[storage.Length - BLOCK..] == EPILOGUE;
      assert storage[..PREFIX + size] == before;
    }

    ghost predicate Ended()
      reads storage
    {
      storage.Length >= PREFIX + BLOCK && (storage.Length - PREFIX) % BLOCK == 0
          && storage[storage.Length - BLOCK..] == EPILOGUE
    }

    /** The payload is the last segment, fills its place, and what comes before fits in front of it. */
    ghost predicate Takes(rest: seq<Segment>, mine: bool) {
      && mine && rest != [] && rest[|rest| - 1].data != []
      && PREFIX + |rest[|rest| - 1].data| + BLOCK == storage.Length
      && |Rest(rest[..|rest| - 1])| <= PREFIX
    }

    /** Lays the segments before the payload out in front of it, when the payload is the last
        segment and they fit. What the storage then holds from `at` on is the whole record. */
    method SecurePlaintext(rest: seq<Segment>, mine: bool) returns (at: int)
      requires Ended()
      requires rest != [] && mine ==>
                 var last := rest[|rest| - 1].data;
                 |last| <= storage.Length - PREFIX && storage[PREFIX..PREFIX + |last|] == last
      modifies storage
      ensures Ended() && storage[PREFIX..] == old(storage[PREFIX..])
      ensures at >= 0 <==> Takes(rest, mine)
      ensures at >= 0 ==> at <= PREFIX && storage[at..] == Rest(rest) + EPILOGUE
    {
      hide Padded, Pad, Rest;
      if rest == [] { return -1; }
      var payload := rest[|rest| - 1].data;
      if |payload| == 0 || PREFIX + |payload| + BLOCK != storage.Length || !mine { return -1; }
      var before := rest[..|rest| - 1];
      var prefix := PrefixSize(before);
      if prefix < 0 { return -1; }
      LayOut(before, prefix);
      at := PREFIX - prefix;
      ghost var now := storage[..];
      assert storage[at..] == now[at..] && storage[PREFIX..] == now[PREFIX..] && storage[at..PREFIX] == now[at..PREFIX];
      Assembled(rest, now, at, old(storage[..]));
    }

    /** The size of the segments before the payload, unless they do not fit. */
    method PrefixSize(before: seq<Segment>) returns (prefix: int)
      ensures prefix >= 0 <==> |Rest(before)| <= PREFIX
      ensures prefix >= 0 ==> prefix == |Rest(before)|
    {
      hide Padded, Pad;
      prefix := 0;
      var i := 0;
      while i < |before|
        invariant 0 <= i <= |before| && 0 <= prefix == |Rest(before[..i])| <= PREFIX
      {
        var padded := Padded(|before[i].data|);
        RestMore(before[..i], before[i]);
        assert before[..i + 1] == before[..i] + [before[i]];
        RestPrefix(before, i + 1);
        if padded > PREFIX - prefix { return -1; }
        prefix := prefix + padded;
        i := i + 1;
      }
      assert before[..i] == before;
    }

    method LayOut(before: seq<Segment>, prefix: nat)
      requires prefix == |Rest(before)| <= PREFIX <= storage.Length
      modifies storage
      ensures storage[PREFIX..] == old(storage[PREFIX..]) && storage[PREFIX - prefix..PREFIX] == Rest(before)
    {
      hide Padded, Pad;
      var start := PREFIX - prefix;
      ClearRange(storage, start, PREFIX);
      var offset, i := start, 0;
      while i < |before|
        invariant 0 <= i <= |before| && start <= offset <= PREFIX && offset == start + |Rest(before[..i])|
        invariant storage[PREFIX..] == old(storage[PREFIX..])
        invariant storage[start..offset] == Rest(before[..i]) && storage[offset..PREFIX] == Zeros(PREFIX - offset)
      {
        var data := before[i].data;
        RestMore(before[..i], before[i]);
        assert before[..i + 1] == before[..i] + [before[i]];
        RestPrefix(before, i + 1);
        CopyOver(start, offset, data, before[..i]);
        offset := offset + Padded(|data|);
        i := i + 1;
      }
      assert before[..i] == before;
    }

    /** Copies a segment into cleared storage, which pads it. */
    method CopyOver(ghost start: nat, offset: nat, data: seq<Byte>, ghost done: seq<Segment>)
      requires start <= offset && offset + Padded(|data|) <= PREFIX <= storage.Length
      requires storage[start..offset] == Rest(done) && storage[offset..PREFIX] == Zeros(PREFIX - offset)
      modifies storage
      ensures storage[PREFIX..] == old(storage[PREFIX..])
      ensures storage[start..offset + Padded(|data|)] == Rest(done) + Pad(data)
      ensures storage[offset + Padded(|data|)..PREFIX] == Zeros(PREFIX - offset - Padded(|data|))
    {
      hide Padded, Rest, Pad;
      ghost var was := storage[..];
      Store(storage, offset, data);
      ghost var now := storage[..];
      var end := offset + Padded(|data|);
      assert was[start..offset] == Rest(done) && was[offset..PREFIX] == Zeros(PREFIX - offset);
      Copied(was, start, offset, data, done);
      assert storage[PREFIX..] == now[PREFIX..] && storage[start..end] == now[start..end]
          && storage[end..PREFIX] == now[end..PREFIX];
    }
  }

  lemma Copied(was: seq<Byte>, start: nat, offset: nat, data: seq<Byte>, done: seq<Segment>)
    requires start <= offset && offset + Padded(|data|) <= PREFIX <= |was|
    requires was[start..offset] == Rest(done) && was[offset..PREFIX] == Zeros(PREFIX - offset)
    ensures var now, end := Splice(was, offset, data), offset + Padded(|data|);
            now[PREFIX..] == was[PREFIX..] && now[start..end] == Rest(done) + Pad(data)
                && now[end..PREFIX] == Zeros(PREFIX - end)
  {
    hide Padded, Rest;
    var now, end := Splice(was, offset, data), offset + Padded(|data|);
    forall k | offset + |data| <= k < |was| ensures now[k] == was[k] { }
    forall k | offset <= k < PREFIX ensures was[k] == 0 { assert was[offset..PREFIX][k - offset] == 0; }
    assert now[start..offset] == was[start..offset];
    forall k | 0 <= k < end - offset ensures now[offset..end][k] == Pad(data)[k] {
      assert now[offset..end][k] == now[offset + k];
      assert k >= |data| ==> now[offset + k] == was[offset + k] == 0;
    }
    assert now[offset..end] == Pad(data);
    assert now[start..end] == now[start..offset] + now[offset..end];
  }

  /** The prefix, the payload and the end in storage are the record. */
  lemma Assembled(rest: seq<Segment>, now: seq<Byte>, at: nat, was: seq<Byte>)
    requires rest != [] && at <= PREFIX && |now| == |was| == PREFIX + |rest[|rest| - 1].data| + BLOCK
    requires |rest[|rest| - 1].data| % BLOCK == 0
    requires now[PREFIX..] == was[PREFIX..] && was[PREFIX..|was| - BLOCK] == rest[|rest| - 1].data
             && was[|was| - BLOCK..] == EPILOGUE
    requires now[at..PREFIX] == Rest(rest[..|rest| - 1])
    ensures now[at..] == Rest(rest) + EPILOGUE && now[|now| - BLOCK..] == EPILOGUE
  {
    hide Padded, Pad, Rest;
    var last := rest[|rest| - 1];
    assert rest == rest[..|rest| - 1] + [last];
    RestMore(rest[..|rest| - 1], last);
    NoPadding(last.data);
    assert was[PREFIX..] == last.data + EPILOGUE by {
      assert was[PREFIX..] == was[PREFIX..|was| - BLOCK] + was[|was| - BLOCK..];
    }
    assert now[at..] == now[at..PREFIX] + now[PREFIX..];
    assert now[|now| - BLOCK..] == now[PREFIX..][|last.data|..];
  }

  lemma {:induction false} RestPrefix(segments: seq<Segment>, n: nat)
    requires n <= |segments|
    ensures |Rest(segments[..n])| <= |Rest(segments)|
  {
    hide Pad, Padded;
    if n < |segments| {
      RestPrefix(segments[..|segments| - 1], n);
      assert segments[..|segments| - 1][..n] == segments[..n];
      RestMore(segments[..|segments| - 1], segments[|segments| - 1]);
      assert segments == segments[..|segments| - 1] + [segments[|segments| - 1]];
    } else {
      assert segments[..n] == segments;
    }
  }

  lemma NoPadding(data: seq<Byte>)
    requires |data| % BLOCK == 0
    ensures Pad(data) == data
  {
  }

  // ---------------------------------------------------------------- sending

  lemma TrimStep(segments: seq<Segment>)
    requires segments != []
    ensures Trim(segments) == if |segments| > 1
            && segments[|segments| - 1].data == [] then Trim(segments[..|segments| - 1]) else segments
  {
  }

  /** Drops trailing empty segments. */
  method TrimSegments(segments: seq<Segment>) returns (r: seq<Segment>)
    requires segments != []
    ensures r == Trim(segments)
  {
    hide Trim;
    var end := |segments|;
    assert segments[..end] == segments;
    while end > 1 && |segments[end - 1].data| == 0
      invariant 1 <= end <= |segments| && Trim(segments) == Trim(segments[..end])
    {
      TrimStep(segments[..end]);
      assert segments[..end][..end - 1] == segments[..end - 1];
      end := end - 1;
    }
    TrimStep(segments[..end]);
    return segments[..end];
  }

  predicate DescribedOk(ds: seq<Descriptor>, limits: Limits) {
    forall i :: 0 <= i < |ds| ==>
        ds[i].length <= MAX_UINT32 && ds[i].length <= limits.maxSegment && ValidAlignment(ds[i].alignment)
  }

  lemma SendableIs(frame: Frame, limits: Limits)
    requires 1 <= |frame.segments| <= MAX_SEGMENTS && ValidTag(frame.tag)
    ensures Sendable(frame, limits) <==>
              var ds := Describe(Trim(frame.segments));
              DescribedOk(ds, limits) && WireSize(ds) <= limits.maxFrame && WireSize(ds) <= MAX_INT
  {
    hide WireSize, ValidAlignment, Trim, Describe;
  }

  lemma Unsendable(frame: Frame, limits: Limits)
    requires !(1 <= |frame.segments| <= MAX_SEGMENTS && ValidTag(frame.tag))
    ensures !Sendable(frame, limits)
  {
  }

  method DescribeAll(segments: seq<Segment>, limits: Limits) returns (ok: bool, ds: seq<Descriptor>)
    ensures ok <==> DescribedOk(Describe(segments), limits)
    ensures ok ==> ds == Describe(segments)
  {
    hide ValidAlignment;
    ds := [];
    var i := 0;
    while i < |segments|
      invariant 0 <= i <= |segments| && ds == Describe(segments[..i])
      invariant DescribedOk(ds, limits)
    {
      assert Describe(segments)[i] == Descriptor(|segments[i].data|, segments[i].alignment);
      var segment := segments[i];
      if |segment.data| > MAX_UINT32 || |segment.data| > limits.maxSegment { return false, []; }
      if !ValidAlignment(segment.alignment) { return false, []; }
      ds := ds + [Descriptor(|segment.data|, segment.alignment)];
      i := i + 1;
      assert segments[..i][..i - 1] == segments[..i - 1];
    }
    assert segments[..i] == segments;
    return true, ds;
  }

  /** The size of a frame on the wire and the number of its records. */
  method Measure(ds: seq<Descriptor>) returns (wireSize: nat, records: nat)
    requires ds != []
    ensures wireSize == WireSize(ds) && records == RecordCount(ds)
  {
    hide Padded;
    wireSize, records := PRELUDE, 1;
    var firstPadded := Padded(ds[0].length);
    if firstPadded > INLINE {
      wireSize := wireSize + firstPadded - INLINE + TAG;
      records := records + 1;
    }
    if |ds| > 1 {
      var start := wireSize + BLOCK + TAG;
      wireSize := start;
      var i := 1;
      while i < |ds|
        invariant 1 <= i <= |ds| && wireSize == start + RestSize(ds[1..i])
      {
        RestSizeMore(ds[1..i], ds[i]);
        assert ds[1..i + 1] == ds[1..i] + [ds[i]];
        wireSize := wireSize + Padded(ds[i].length);
        i := i + 1;
      }
      assert ds[1..i] == ds[1..];
      records := records + 1;
    }
  }

  lemma {:induction false} RestSizeMore(ds: seq<Descriptor>, d: Descriptor)
    ensures RestSize(ds + [d]) == RestSize(ds) + Padded(d.length)
  {
    hide Padded;
    if ds == [] {
      assert ds + [d] == [d] && RestSize([d][1..]) == 0;
      assert RestSize([d]) == Padded(d.length) + RestSize([d][1..]);
    } else {
      RestSizeMore(ds[1..], d);
      assert (ds + [d])[1..] == ds[1..] + [d];
    }
  }

  method WriteFirst(tx: SecureDirection, crc: Checksum, wire: array<Byte>, tag: Byte, ds: seq<Descriptor>,
                    data: seq<Byte>)
    requires tx.Valid() && Ideal(tx.c) && tx.HasLeft(1) && PRELUDE <= wire.Length && |ds| <= MAX_SEGMENTS
    modifies tx, wire
    ensures tx.Valid() && tx.Value() == Advance(old(tx.Value())) && tx.Spent(old(tx.Value()), old(tx.used))
    ensures wire[..PRELUDE] == tx.c.seal(NonceOf(old(tx.Value())), Encode(crc, tag, ds) + Inline(data))
  {
    hide Encode, Ideal;
    var preamble := EncodePreamble(crc, tag, ds);
    ClearRange(wire, 0, FIRST);
    ghost var clear := wire[..];
    Store(wire, 0, preamble);
    var inline := if |data| > INLINE then data[..INLINE] else data;
    ghost var before := wire[..];
    Store(wire, SIZE, inline);
    Inlined(clear, preamble, data);
    assert wire[0..FIRST] == wire[..FIRST] == Encode(crc, tag, ds) + Inline(data);
    tx.SealAt(wire, 0, FIRST);
    assert wire[..PRELUDE] == wire[0..PRELUDE];
  }

  lemma Inlined(clear: seq<Byte>, preamble: seq<Byte>, data: seq<Byte>)
    requires |clear| >= FIRST && |preamble| == SIZE && clear[0..FIRST] == Zeros(FIRST)
    ensures var inline := if |data| > INLINE then data[..INLINE] else data;
            Splice(Splice(clear, 0, preamble), SIZE, inline)[..FIRST] == preamble + Inline(data)
  {
    var inline := if |data| > INLINE then data[..INLINE] else data;
    var now := Splice(Splice(clear, 0, preamble), SIZE, inline);
    forall k | 0 <= k < FIRST ensures now[k] == (preamble + Inline(data))[k] {
      assert clear[0..FIRST][k] == 0;
    }
  }

  method WriteOverflow(tx: SecureDirection, wire: array<Byte>, at: nat, data: seq<Byte>)
    requires tx.Valid() && Ideal(tx.c) && tx.HasLeft(1) && Padded(|data|) > INLINE
    requires at + Padded(|data|) - INLINE + TAG <= wire.Length
    modifies tx, wire
    ensures tx.Valid() && tx.Value() == Advance(old(tx.Value())) && tx.Spent(old(tx.Value()), old(tx.used))
    ensures wire[..at] == old(wire[..at])
    ensures wire[at..at + Padded(|data|) - INLINE + TAG] == tx.c.seal(NonceOf(old(tx.Value())), Overflow(data))
  {
    hide Ideal;
    OverflowIs(data);
    var size := Padded(|data|) - INLINE;
    ghost var was := wire[..];
    Store(wire, at, data[INLINE..]);
    ClearRange(wire, at + |data| - INLINE, at + size);
    ghost var now := wire[..];
    Overflowed(was, at, data);
    assert wire[at..at + size] == now[at..at + size] && wire[..at] == now[..at];
    tx.SealAt(wire, at, size);
  }

  lemma OverflowIs(data: seq<Byte>)
    requires Padded(|data|) > INLINE
    ensures |data| > INLINE && Overflow(data) == data[INLINE..] + Zeros(Padded(|data|) - |data|)
  {
  }

  lemma Overflowed(was: seq<Byte>, at: nat, data: seq<Byte>)
    requires Padded(|data|) > INLINE && |data| > INLINE && at + Padded(|data|) - INLINE <= |was|
    ensures var zeros := Zeros(Padded(|data|) - |data|);
            var now := Splice(Splice(was, at, data[INLINE..]), at + |data| - INLINE, zeros);
            now[at..at + Padded(|data|) - INLINE] == Overflow(data) && now[..at] == was[..at]
  {
    hide Padded;
    OverflowIs(data);
  }

  method WriteRest(tx: SecureDirection, wire: array<Byte>, at: nat, rest: seq<Segment>, lease: PaddedLease?, mine: bool)
    requires tx.Valid() && Ideal(tx.c) && tx.HasLeft(1) && rest != [] && at + |Rest(rest)| + BLOCK + TAG <= wire.Length
    requires lease != null ==> lease.Ended() && lease.storage != wire
    requires lease != null && mine ==>
               && |rest[|rest| - 1].data| <= lease.storage.Length - PREFIX
               && lease.storage[PREFIX..PREFIX + |rest[|rest| - 1].data|] == rest[|rest| - 1].data
    modifies tx, wire, if lease != null then {lease.storage} else {}
    ensures tx.Valid() && tx.Value() == Advance(old(tx.Value())) && tx.Spent(old(tx.Value()), old(tx.used))
    ensures wire[..at] == old(wire[..at])
    ensures wire[at..at + |Rest(rest)| + BLOCK + TAG] == tx.c.seal(NonceOf(old(tx.Value())), Rest(rest) + EPILOGUE)
  {
    hide Ideal, Rest, Padded;
    if lease != null {
      var from := lease.SecurePlaintext(rest, mine);
      if from >= 0 && lease.storage.Length - from == |Rest(rest)| + BLOCK {
        var nonce := tx.Next();
        SealSize(tx.c, nonce.value, lease.storage[from..]);
        Store(wire, at, tx.c.seal(nonce.value, lease.storage[from..]));
        return;
      }
    }
    FillRest(wire, at, rest);
    tx.SealAt(wire, at, |Rest(rest)| + BLOCK);
  }

  lemma SealSize(c: Cipher, n: Nonce, p: seq<Byte>)
    requires Ideal(c)
    ensures |c.seal(n, p)| == |p| + TAG
  {
  }

  /** Writing behind what is there appends to it. */
  lemma Appended(was: seq<Byte>, now: seq<Byte>, at: nat, offset: nat, data: seq<Byte>)
    requires at <= offset && offset + |data| <= |was| == |now|
    requires now[..offset] == was[..offset] && now[offset..offset + |data|] == data
    ensures now[..at] == was[..at] && now[at..offset + |data|] == was[at..offset] + data
  {
    assert now[at..offset] == now[..offset][at..] == was[at..offset];
    assert now[..at] == now[..offset][..at];
    assert now[at..offset + |data|] == now[at..offset] + now[offset..offset + |data|];
  }

  /** Writes the padded segments one after another and ends the record. */
  method FillRest(wire: array<Byte>, at: nat, rest: seq<Segment>)
    requires at + |Rest(rest)| + BLOCK <= wire.Length
    modifies wire
    ensures wire[..at] == old(wire[..at])
    ensures wire[at..at + |Rest(rest)| + BLOCK] == Rest(rest) + EPILOGUE
  {
    hide Padded, Pad, Rest;
    var offset, i := at, 0;
    assert rest[..0] == [] && Rest([]) == [] by { NoSegments(); }
    while i < |rest|
      invariant 0 <= i <= |rest| && offset == at + |Rest(rest[..i])| <= at + |Rest(rest)|
      invariant wire[..at] == old(wire[..at]) && wire[at..offset] == Rest(rest[..i])
    {
      RestMore(rest[..i], rest[i]);
      assert rest[..i + 1] == rest[..i] + [rest[i]];
      RestPrefix(rest, i + 1);
      ghost var was := wire[..];
      StorePadded(wire, offset, rest[i].data);
      ghost var now := wire[..];
      Appended(was, now, at, offset, Pad(rest[i].data));
      offset := offset + Padded(|rest[i].data|);
      i := i + 1;
      assert wire[..at] == now[..at] && wire[at..offset] == now[at..offset];
    }
    assert rest[..i] == rest;
    ghost var was := wire[..];
    Store(wire, offset, EPILOGUE);
    ghost var now := wire[..];
    Appended(was, now, at, offset, EPILOGUE);
    assert wire[..at] == now[..at] && wire[at..offset + BLOCK] == now[at..offset + BLOCK];
  }

  lemma NoSegments() ensures Rest([]) == [] { }

  lemma SealHead(c: Cipher, d: Direction, head: seq<Byte>, tail: seq<seq<Byte>>)
    ensures SealAll(c, d, [head] + tail) == c.seal(NonceOf(d), head) + SealAll(c, Advance(d), tail)
    ensures AdvanceBy(d, 1 + |tail|) == AdvanceBy(Advance(d), |tail|)
  {
    assert ([head] + tail)[1..] == tail;
  }

  /** Encodes a frame into the spare buffer when that is large enough, or into a new one. The
      bytes are the frame's wire form whatever the buffer held and whether the payload is
      leased; a frame that cannot be sent uses up no nonce. */
  method EncodeInto(tx: SecureDirection, crc: Checksum, frame: Frame, limits: Limits, spare: array?<Byte>,
                    lease: PaddedLease?, mine: bool)
    returns (wire: array?<Byte>, size: nat)
    requires tx.Valid() && Ideal(tx.c)
    requires lease != null ==> lease.Ended() && lease.storage != spare
    requires lease != null && mine && frame.segments != [] ==>
               var last := Trim(frame.segments)[|Trim(frame.segments)| - 1].data;
               |last| <= lease.storage.Length - PREFIX && lease.storage[PREFIX..PREFIX + |last|] == last
    modifies tx, if spare != null then {spare} else {}, if lease != null then {lease.storage} else {}
    ensures tx.Valid() && tx.Spent(old(tx.Value()), old(tx.used))
    ensures match Send(crc, tx.c, old(tx.Value()), frame, limits)
            case Unsent => wire == null && tx.Value() == old(tx.Value())
            case Wire(bytes, after) =>
              && wire != null && size <= wire.Length && wire[..size] == bytes && tx.Value() == after
              && (fresh(wire) || wire == spare)
  {
    hide Ideal, SealAll, Padded, Rest, RestSize, Records, Trim, AdvanceBy, Sendable, DescribedOk, WireSize,
        RecordCount, Describe;
    wire, size := null, 0;
    tx.SpentNone();
    if |frame.segments| < 1 || |frame.segments| > MAX_SEGMENTS
        || !ValidTag(frame.tag) { Unsendable(frame, limits); return; }
    SendableIs(frame, limits);
    var segments := TrimSegments(frame.segments);
    var ok, ds := DescribeAll(segments, limits);
    if !ok { return; }
    var wireSize, records := Measure(ds);
    if wireSize > limits.maxFrame || wireSize > MAX_INT { return; }
    if !tx.HasLeft(records) { return; }
    var buffer: array<Byte>;
    if spare == null || spare.Length < wireSize { buffer := new Byte[wireSize](_ => 0); } else { buffer := spare; }
    WriteAll(tx, crc, buffer, frame.tag, segments, ds, lease, mine);
    return buffer, wireSize;
  }

  /** Writes and seals the records of a frame one behind the other. */
  method WriteAll(tx: SecureDirection, crc: Checksum, wire: array<Byte>, tag: Byte, segments: seq<Segment>,
                  ds: seq<Descriptor>,
                  lease: PaddedLease?, mine: bool)
    requires tx.Valid() && Ideal(tx.c) && 1 <= |segments| <= MAX_SEGMENTS && ds == Describe(segments)
    requires tx.HasLeft(RecordCount(ds)) && WireSize(ds) <= wire.Length
    requires lease != null ==> lease.Ended() && lease.storage != wire
    requires lease != null && mine ==>
               && |segments[|segments| - 1].data| <= lease.storage.Length - PREFIX
               && lease.storage[PREFIX..PREFIX + |segments[|segments| - 1].data|] == segments[|segments| - 1].data
    modifies tx, wire, if lease != null then {lease.storage} else {}
    ensures tx.Valid() && tx.Value() == AdvanceBy(old(tx.Value()), RecordCount(ds))
            && tx.Spent(old(tx.Value()), old(tx.used))
    ensures wire[..WireSize(ds)] == SealAll(tx.c, old(tx.Value()), Records(crc, tag, segments))
  {
    hide Ideal, SealAll, Padded, Rest, RestSize, Encode, Inline, Overflow, AdvanceBy, Between, Onward,
        SecureDirection.Valid;
    ghost var d, was := tx.Value(), tx.used;
    var data := segments[0].data;
    WriteFirst(tx, crc, wire, tag, ds, data);
    ghost var first, head := Encode(crc, tag, ds) + Inline(data), wire[..PRELUDE];
    ghost var middle: seq<seq<Byte>> := if Padded(|data|) > INLINE then [Overflow(data)] else [];
    var at := PRELUDE;
    if Padded(|data|) > INLINE {
      ghost var reached, thus := tx.Value(), tx.used;
      WriteOverflow(tx, wire, at, data);
      tx.SpentOn(d, was, reached, thus);
      at := at + Padded(|data|) - INLINE + TAG;
      assert wire[..at] == wire[..PRELUDE] + wire[PRELUDE..at];
    }
    assert wire[..at] == head + SealSome(tx.c, Advance(d), middle);
    assert tx.Value() == After(Advance(d), middle);
    ghost var last: seq<seq<Byte>> := if |segments| > 1 then [Rest(segments[1..]) + EPILOGUE] else [];
    ghost var size := at;
    if |segments| > 1 {
      var rest := segments[1..];
      assert ds[1..] == Describe(rest);
      ghost var reached, thus := tx.Value(), tx.used;
      WriteRest(tx, wire, at, rest, lease, mine);
      tx.SpentOn(d, was, reached, thus);
      size := at + |Rest(rest)| + BLOCK + TAG;
      assert wire[..size] == wire[..at] + wire[at..size];
    }
    assert wire[..size] == head + SealSome(tx.c, Advance(d), middle) + SealSome(tx.c, After(Advance(d), middle), last);
    Chained(tx.c, d, first, middle, last);
    assert Records(crc, tag, segments) == [first] + middle + last;
  }

  /** The sealed form of at most one record. */
  function SealSome(c: Cipher, d: Direction, records: seq<seq<Byte>>): seq<Byte> {
    if records == [] then [] else c.seal(NonceOf(d), records[0])
  }

  function After(d: Direction, records: seq<seq<Byte>>): Direction { if records == [] then d else Advance(d) }

  lemma SealAtMostOne(c: Cipher, d: Direction, records: seq<seq<Byte>>)
    requires |records| <= 1
    ensures SealAll(c, d, records) == SealSome(c, d, records) && AdvanceBy(d, |records|) == After(d, records)
  {
    hide SealAll, AdvanceBy;
    if records == [] { NothingSealed(c, d); }
        else { SealOne(c, d, records[0]); AdvanceOne(d); assert records == [records[0]]; }
  }

  /** Sealed records one behind the other are the wire form of the frame. */
  lemma Chained(c: Cipher, d: Direction, first: seq<Byte>, middle: seq<seq<Byte>>, last: seq<seq<Byte>>)
    requires |middle| <= 1 && |last| <= 1
    ensures SealAll(c, d, [first] + middle + last)
            == c.seal(NonceOf(d), first) + SealSome(c, Advance(d), middle)
                + SealSome(c, After(Advance(d), middle), last)
    ensures AdvanceBy(d, 1 + |middle| + |last|) == After(After(Advance(d), middle), last)
  {
    hide SealAll, Advance, AdvanceBy;
    if middle == [] {
      assert [first] + middle + last == [first] + last;
      SealHead(c, d, first, last);
      SealAtMostOne(c, Advance(d), last);
    } else {
      var tail := [middle[0]] + last;
      assert [first] + middle + last == [first] + tail;
      SealHead(c, d, first, tail);
      SealHead(c, Advance(d), middle[0], last);
      SealAtMostOne(c, Advance(Advance(d)), last);
    }
    Associates(c.seal(NonceOf(d), first), SealSome(c, Advance(d), middle),
               SealSome(c, After(Advance(d), middle), last));
  }

  lemma Associates(a: seq<Byte>, b: seq<Byte>, e: seq<Byte>)
    ensures a + (b + e) == a + b + e && a + [] == a && [] + e == e
  {
  }

  lemma NothingSealed(c: Cipher, d: Direction) ensures SealAll(c, d, []) == [] && AdvanceBy(d, 0) == d { }

  // ---------------------------------------------------------------- receiving

  /** Opens the next record of the input. A record that does not open uses up its nonce too. */
  method OpenNext(rx: SecureDirection, input: seq<Byte>, size: nat) returns (r: Opened)
    requires rx.Valid() && rx.HasLeft(1)
    modifies rx
    ensures r == Open(rx.c, old(rx.Value()), input, size) && rx.Valid() && rx.Value() == r.after
    ensures rx.Spent(old(rx.Value()), old(rx.used))
  {
    rx.SpentNone();
    if |input| < size { return Short(rx.Value()); }
    var nonce := rx.Next();
    var plain := rx.c.open(nonce.value, input[..size]);
    if plain.None? { return Short(rx.Value()); }
    return Opened(plain.value, input[size..], rx.Value());
  }

  method IsZero(bytes: seq<Byte>) returns (zero: bool)
    ensures zero == AllZero(bytes)
  {
    var i := 0;
    while i < |bytes|
      invariant 0 <= i <= |bytes| && AllZero(bytes[..i])
    {
      if bytes[i] != 0 { return false; }
      i := i + 1;
    }
    assert bytes[..i] == bytes;
    return true;
  }

  /** Segments cut so far, in front of those still to be cut. */
  function Joined(done: seq<Segment>, r: Option<(seq<Segment>, seq<Byte>)>): Option<(seq<Segment>, seq<Byte>)> {
    match r case None => None case Some((more, tail)) => Some((done + more, tail))
  }

  /** Cuts the segments out of a record and checks their padding. */
  method CutSegments(bytes: seq<Byte>, ds: seq<Descriptor>) returns (r: Option<(seq<Segment>, seq<Byte>)>)
    requires |bytes| == RestSize(ds) + BLOCK
    ensures r == Split(bytes, ds)
  {
    hide Padded, AllZero, RestSize;
    var segments, left := [], bytes;
    var i := 0;
    assert ds[0..] == ds;
    JoinedNone(Split(bytes, ds));
    while i < |ds|
      invariant 0 <= i <= |ds| && |left| == RestSize(ds[i..]) + BLOCK
      invariant Split(bytes, ds) == Joined(segments, Split(left, ds[i..]))
    {
      RestSizeStep(ds[i..]);
      assert ds[i..][0] == ds[i] && ds[i..][1..] == ds[i + 1..];
      var n, padded := ds[i].length, Padded(ds[i].length);
      var clear := IsZero(left[n..padded]);
      if !clear { return None; }
      var segment := Segment(ds[i].alignment, left[..n]);
      JoinedMore(segments, segment, Split(left[padded..], ds[i + 1..]));
      segments := segments + [segment];
      left := left[padded..];
      i := i + 1;
    }
    RestSizeStep(ds[i..]);
    assert segments + [] == segments;
    return Some((segments, left));
  }

  lemma JoinedNone(r: Option<(seq<Segment>, seq<Byte>)>)
    ensures Joined([], r) == r
  {
    if r.Some? { assert [] + r.value.0 == r.value.0; }
  }

  lemma JoinedMore(done: seq<Segment>, segment: Segment, r: Option<(seq<Segment>, seq<Byte>)>)
    ensures Joined(done + [segment], r) == Joined(done, Joined([segment], r))
  {
    if r.Some? { assert done + [segment] + r.value.0 == done + ([segment] + r.value.0); }
  }

  lemma RestSizeStep(ds: seq<Descriptor>)
    ensures RestSize(ds) == if ds == [] then 0 else Padded(ds[0].length) + RestSize(ds[1..])
  {
  }

  method CheckDescriptors(ds: seq<Descriptor>, limits: Limits) returns (ok: bool)
    requires ds != []
    ensures ok == Allowed(ds, limits)
  {
    hide ValidAlignment, WireSize;
    var i := 0;
    while i < |ds|
      invariant 0 <= i <= |ds| && forall j :: 0 <= j < i ==>
                  ValidAlignment(ds[j].alignment) && ds[j].length <= limits.maxSegment
    {
      if !ValidAlignment(ds[i].alignment) || ds[i].length > limits.maxSegment { return false; }
      i := i + 1;
    }
    var wireSize, records := Measure(ds);
    return wireSize <= limits.maxFrame && wireSize <= MAX_INT;
  }

  /** Reads and authenticates one frame from the input. */
  method ReadFrame(rx: SecureDirection, crc: Checksum, input: seq<Byte>, limits: Limits) returns (r: Received)
    requires rx.Valid() && Ideal(rx.c)
    modifies rx
    ensures r == Receive(crc, rx.c, old(rx.Value()), input, limits) && rx.Valid() && rx.Value() == r.after
    ensures rx.Spent(old(rx.Value()), old(rx.used))
  {
    hide Decode, Allowed, ReceiveFirst;
    rx.SpentNone();
    ghost var d, was := rx.Value(), rx.used;
    if !rx.HasLeft(1) || limits.maxFrame < PRELUDE { return Lost(rx.Value()); }
    var unsealed := OpenNext(rx, input, PRELUDE);
    if unsealed.Short? { return Lost(rx.Value()); }
    var preamble := DecodePreamble(crc, unsealed.plain[..SIZE]);
    if preamble.None? { return Lost(rx.Value()); }
    var (tag, ds) := preamble.value;
    DecodedSome(crc, unsealed.plain[..SIZE]);
    var ok := CheckDescriptors(ds, limits);
    if !ok { return Lost(rx.Value()); }
    var wireSize, records := Measure(ds);
    if !rx.HasLeft(records - 1) { return Lost(rx.Value()); }
    ghost var middle, thus := rx.Value(), rx.used;
    r := ReadFirst(rx, unsealed.left, tag, ds, unsealed.plain[SIZE..]);
    rx.SpentOn(d, was, middle, thus);
  }

  lemma DecodedSome(crc: Checksum, bytes: seq<Byte>)
    requires |bytes| == SIZE && Decode(crc, bytes).Some?
    ensures Decode(crc, bytes).value.1 != []
  {
  }

  method ReadFirst(rx: SecureDirection, input: seq<Byte>, tag: Byte, ds: seq<Descriptor>,
                   inline: seq<Byte>) returns (r: Received)
    requires rx.Valid() && Ideal(rx.c) && ds != [] && |inline| == INLINE && rx.HasLeft(RecordCount(ds) - 1)
    modifies rx
    ensures r == ReceiveFirst(rx.c, old(rx.Value()), input, tag, ds, inline) && rx.Valid() && rx.Value() == r.after
    ensures rx.Spent(old(rx.Value()), old(rx.used))
  {
    hide ReceiveRest;
    var padded := inline;
    var left := input;
    rx.SpentNone();
    ghost var d, was := rx.Value(), rx.used;
    if Padded(ds[0].length) > INLINE {
      var unsealed := OpenNext(rx, input, OverflowSize(ds) + TAG);
      if unsealed.Short? { return Lost(rx.Value()); }
      padded, left := inline + unsealed.plain, unsealed.left;
    }
    ghost var middle, thus := rx.Value(), rx.used;
    r := ReadRest(rx, left, tag, ds, padded);
    rx.SpentOn(d, was, middle, thus);
  }

  method ReadRest(rx: SecureDirection, input: seq<Byte>, tag: Byte, ds: seq<Descriptor>,
                  padded: seq<Byte>) returns (r: Received)
    requires rx.Valid() && Ideal(rx.c) && ds != [] && ds[0].length <= |padded| && (|ds| > 1 ==> rx.HasLeft(1))
    modifies rx
    ensures r == ReceiveRest(rx.c, old(rx.Value()), input, tag, ds, padded) && rx.Valid() && rx.Value() == r.after
    ensures rx.Spent(old(rx.Value()), old(rx.used))
  {
    hide Split, RestSize, AllZero;
    rx.SpentNone();
    var n := ds[0].length;
    var clear := IsZero(padded[n..]);
    if !clear { return Lost(rx.Value()); }
    var first := Segment(ds[0].alignment, padded[..n]);
    if |ds| == 1 { return Got(Frame(tag, [first]), input, rx.Value()); }
    var unsealed := OpenNext(rx, input, RestSize(ds[1..]) + BLOCK + TAG);
    if unsealed.Short? { return Lost(rx.Value()); }
    var cut := CutSegments(unsealed.plain, ds[1..]);
    if cut.None? { return Lost(rx.Value()); }
    var (segments, tail) := cut.value;
    clear := IsZero(tail[1..]);
    if !clear || tail[0] % 16 != COMPLETE { return Lost(rx.Value()); }
    return Got(Frame(tag, [first] + segments), unsealed.left, rx.Value());
  }
}
