/** The fixed preamble of a messenger frame: its tag, the lengths and alignments of its
    segments, and a checksum. */
module Preamble {
  import opened Common

  type Byte = x: int | 0 <= x < 256

  const SIZE := 32
  const BODY := 28
  const MAX_SEGMENTS := 4
  const MAX_TAG := 20
  const TAG_MESSAGE: Byte := 17

  datatype Descriptor = Descriptor(length: nat, alignment: nat)

  /** Continues a checksum over more bytes; any such function. */
  type Checksum = (nat, seq<Byte>) -> nat

  // ---------------------------------------------------------------- little-endian numbers

  function Le(value: nat, size: nat): (bytes: seq<Byte>)
    ensures |bytes| == size
  {
    if size == 0 then [] else [value % 256] + Le(value / 256, size - 1)
  }

  function UnLe(bytes: seq<Byte>): (value: nat) { if bytes == [] then 0 else bytes[0] + 256 * UnLe(bytes[1..]) }

  function Limit(size: nat): (limit: nat)
    ensures limit > 0
  {
    if size == 0 then 1 else 256 * Limit(size - 1)
  }

  lemma {:induction false} UnLeLe(value: nat, size: nat)
    requires value < Limit(size)
    ensures UnLe(Le(value, size)) == value
  {
    if size > 0 {
      UnLeLe(value / 256, size - 1);
      assert Le(value, size)[1..] == Le(value / 256, size - 1);
    }
  }

  lemma {:induction false} LeUnLe(bytes: seq<Byte>)
    ensures Le(UnLe(bytes), |bytes|) == bytes && UnLe(bytes) < Limit(|bytes|)
  {
    if bytes != [] {
      LeUnLe(bytes[1..]);
      assert bytes == [bytes[0]] + bytes[1..];
    }
  }

  lemma Sizes()
    ensures Limit(4) == 0x1_0000_0000 && Limit(2) == 0x1_0000
  {
    assert Limit(1) == 0x100;
    assert Limit(3) == 0x100_0000;
  }

  // ---------------------------------------------------------------- the preamble

  function Zeros(n: nat): (bytes: seq<Byte>)
    ensures |bytes| == n && forall i :: 0 <= i < n ==> bytes[i] == 0
  {
    seq(n, _ => 0)
  }

  predicate AllZero(bytes: seq<Byte>) { forall i :: 0 <= i < |bytes| ==> bytes[i] == 0 }

  function One(d: Descriptor): (bytes: seq<Byte>)
    ensures |bytes| == 6
  {
    Le(d.length, 4) + Le(d.alignment, 2)
  }

  function UnOne(bytes: seq<Byte>): (d: Descriptor)
    requires |bytes| == 6
  {
    Descriptor(UnLe(bytes[..4]), UnLe(bytes[4..]))
  }

  function Row(ds: seq<Descriptor>): (bytes: seq<Byte>)
    ensures |bytes| == 6 * |ds|
  {
    if ds == [] then [] else One(ds[0]) + Row(ds[1..])
  }

  function Body(tag: Byte, ds: seq<Descriptor>): (bytes: seq<Byte>)
    requires |ds| <= MAX_SEGMENTS
    ensures |bytes| == BODY
  {
    [tag, |ds|] + Row(ds) + Zeros(BODY - 2 - 6 * |ds|)
  }

  function Encode(crc: Checksum, tag: Byte, ds: seq<Descriptor>): (bytes: seq<Byte>)
    requires |ds| <= MAX_SEGMENTS
    ensures |bytes| == SIZE
  {
    Body(tag, ds) + Le(crc(0, Body(tag, ds)), 4)
  }

  predicate ValidTag(tag: int) { 1 <= tag <= MAX_TAG }

  function Slot(bytes: seq<Byte>, i: nat): (d: seq<Byte>)
    requires |bytes| == SIZE && i < MAX_SEGMENTS
    ensures |d| == 6
  {
    bytes[2 + 6 * i..8 + 6 * i]
  }

  function Descriptors(bytes: seq<Byte>, count: nat): (ds: seq<Descriptor>)
    requires |bytes| == SIZE && count <= MAX_SEGMENTS
    ensures |ds| == count
  {
    seq(count, i requires 0 <= i < count => UnOne(Slot(bytes, i)))
  }

  /** Unused descriptors are zero. */
  predicate SparesClear(bytes: seq<Byte>, count: nat)
    requires |bytes| == SIZE
  {
    forall i :: count <= i < MAX_SEGMENTS ==> UnOne(Slot(bytes, i)) == Descriptor(0, 0)
  }

  function Decode(crc: Checksum, bytes: seq<Byte>): (r: Option<(Byte, seq<Descriptor>)>)
    requires |bytes| == SIZE
  {
    var count := bytes[1];
    if crc(0, bytes[..BODY]) != UnLe(bytes[BODY..]) then None
    else if !ValidTag(bytes[0]) || count < 1 || count > MAX_SEGMENTS then None
    else if bytes[26] != 0 || bytes[27] != 0 || !SparesClear(bytes, count) then None
    else
      var ds := Descriptors(bytes, count);
      if count > 1 && ds[count - 1].length == 0 then None else Some((bytes[0], ds))
  }

  // ---------------------------------------------------------------- round trips

  /** What a preamble can say. */
  predicate Sayable(tag: int, ds: seq<Descriptor>) {
    && ValidTag(tag) && 1 <= |ds| <= MAX_SEGMENTS && (|ds| > 1 ==> ds[|ds| - 1].length != 0)
    && forall i :: 0 <= i < |ds| ==> ds[i].length < 0x1_0000_0000 && ds[i].alignment < 0x1_0000
  }

  ghost predicate Checks(crc: Checksum) { forall start, bytes :: crc(start, bytes) < 0x1_0000_0000 }

  lemma OneBack(d: Descriptor)
    requires d.length < 0x1_0000_0000 && d.alignment < 0x1_0000
    ensures UnOne(One(d)) == d
  {
    Sizes();
    UnLeLe(d.length, 4);
    UnLeLe(d.alignment, 2);
    assert One(d)[..4] == Le(d.length, 4) && One(d)[4..] == Le(d.alignment, 2);
  }

  lemma OneForth(bytes: seq<Byte>)
    requires |bytes| == 6
    ensures One(UnOne(bytes)) == bytes && UnOne(bytes).length < 0x1_0000_0000 && UnOne(bytes).alignment < 0x1_0000
  {
    Sizes();
    LeUnLe(bytes[..4]);
    LeUnLe(bytes[4..]);
    assert bytes == bytes[..4] + bytes[4..];
  }

  lemma {:induction false} RowAt(ds: seq<Descriptor>, i: nat)
    requires i < |ds|
    ensures Row(ds)[6 * i..6 * i + 6] == One(ds[i])
  {
    if i > 0 {
      RowAt(ds[1..], i - 1);
      assert Row(ds)[6 * i..6 * i + 6] == Row(ds[1..])[6 * (i - 1)..6 * (i - 1) + 6];
    }
  }

  lemma SlotUsed(crc: Checksum, tag: Byte, ds: seq<Descriptor>, i: nat)
    requires i < |ds| <= MAX_SEGMENTS
    ensures Slot(Encode(crc, tag, ds), i) == One(ds[i])
  {
    hide One, Row;
    RowAt(ds, i);
    var row, bytes := Row(ds), Encode(crc, tag, ds);
    forall k | 0 <= k < 6 ensures Slot(bytes, i)[k] == One(ds[i])[k] {
      assert bytes[2 + 6 * i + k] == row[6 * i + k];
      assert row[6 * i..6 * i + 6][k] == row[6 * i + k];
    }
  }

  lemma SlotSpare(crc: Checksum, tag: Byte, ds: seq<Descriptor>, i: nat)
    requires |ds| <= i < MAX_SEGMENTS
    ensures Slot(Encode(crc, tag, ds), i) == Zeros(6)
  {
    hide Row;
    var bytes := Encode(crc, tag, ds);
    forall k | 0 <= k < 6 ensures Slot(bytes, i)[k] == 0 { assert bytes[2 + 6 * i + k] == 0; }
  }

  lemma ZeroDescriptor()
    ensures UnOne(Zeros(6)) == Descriptor(0, 0)
  {
    OneBack(Descriptor(0, 0));
    assert Le(0, 4) == Zeros(4) by { LeZero(4); }
    assert Le(0, 2) == Zeros(2) by { LeZero(2); }
    assert One(Descriptor(0, 0)) == Zeros(6);
  }

  lemma {:induction false} LeZero(size: nat)
    ensures Le(0, size) == Zeros(size)
  {
    if size > 0 { LeZero(size - 1); }
  }

  /** A decoder reads back what was encoded. */
  lemma DecodeEncode(crc: Checksum, tag: Byte, ds: seq<Descriptor>)
    requires Checks(crc) && Sayable(tag, ds)
    ensures Decode(crc, Encode(crc, tag, ds)) == Some((tag, ds))
  {
    hide One, UnOne, Row, Le, UnLe, Slot;
    var bytes := Encode(crc, tag, ds);
    EncodedFacts(crc, tag, ds);
    forall i | 0 <= i < |ds| ensures UnOne(Slot(bytes, i)) == ds[i] {
      SlotUsed(crc, tag, ds, i);
      OneBack(ds[i]);
    }
    forall i | |ds| <= i < MAX_SEGMENTS ensures UnOne(Slot(bytes, i)) == Descriptor(0, 0) {
      SlotSpare(crc, tag, ds, i);
      ZeroDescriptor();
    }
    assert Descriptors(bytes, |ds|) == ds;
  }

  lemma EncodedFacts(crc: Checksum, tag: Byte, ds: seq<Descriptor>)
    requires Checks(crc) && |ds| <= MAX_SEGMENTS
    ensures var bytes := Encode(crc, tag, ds);
            && bytes[0] == tag && bytes[1] == |ds| && bytes[26] == 0 && bytes[27] == 0
            && bytes[..BODY] == Body(tag, ds) && crc(0, bytes[..BODY]) == UnLe(bytes[BODY..])
  {
    hide Row;
    var body := Body(tag, ds);
    var bytes := Encode(crc, tag, ds);
    assert bytes[..BODY] == body && bytes[BODY..] == Le(crc(0, body), 4);
    Sizes();
    UnLeLe(crc(0, body), 4);
    assert body[26] == 0 && body[27] == 0;
  }

  /** And only what some encoder wrote is accepted: no two preambles say the same. */
  lemma EncodeDecode(crc: Checksum, bytes: seq<Byte>)
    requires |bytes| == SIZE && Decode(crc, bytes).Some?
    ensures var (tag, ds) := Decode(crc, bytes).value; Sayable(tag, ds) && Encode(crc, tag, ds) == bytes
  {
    hide One, UnOne, Row, Le, UnLe, Slot;
    var (tag, ds) := Decode(crc, bytes).value;
    forall i | 0 <= i < |ds|
      ensures One(ds[i]) == Slot(bytes, i) && ds[i].length < 0x1_0000_0000 && ds[i].alignment < 0x1_0000
    {
      OneForth(Slot(bytes, i));
    }
    forall i | |ds| <= i < MAX_SEGMENTS ensures Slot(bytes, i) == Zeros(6) {
      SpareIsZero(Slot(bytes, i));
    }
    BodyIs(bytes, tag, ds);
    LeUnLe(bytes[BODY..]);
    assert bytes == bytes[..BODY] + bytes[BODY..];
  }

  lemma SpareIsZero(bytes: seq<Byte>)
    requires |bytes| == 6 && UnOne(bytes) == Descriptor(0, 0)
    ensures bytes == Zeros(6)
  {
    hide One, UnOne;
    OneForth(bytes);
    ZeroDescriptor();
    OneForth(Zeros(6));
  }

  lemma BodyIs(bytes: seq<Byte>, tag: Byte, ds: seq<Descriptor>)
    requires |bytes| == SIZE && 1 <= |ds| <= MAX_SEGMENTS && bytes[0] == tag && bytes[1] == |ds| && bytes[26] == 0
             && bytes[27] == 0
    requires forall i :: 0 <= i < |ds| ==> One(ds[i]) == Slot(bytes, i)
    requires forall i :: |ds| <= i < MAX_SEGMENTS ==> Slot(bytes, i) == Zeros(6)
    ensures Body(tag, ds) == bytes[..BODY]
  {
    hide One, Row;
    var body := Body(tag, ds);
    forall k | 0 <= k < BODY ensures body[k] == bytes[k] {
      if 2 <= k < 26 {
        var i, r := (k - 2) / 6, (k - 2) % 6;
        assert k == 2 + 6 * i + r && Slot(bytes, i)[r] == bytes[k];
        if i < |ds| {
          RowAt(ds, i);
          assert Row(ds)[6 * i..6 * i + 6][r] == Row(ds)[6 * i + r];
        }
      }
    }
  }

  // ---------------------------------------------------------------- as it runs

  method EncodePreamble(crc: Checksum, tag: Byte, ds: seq<Descriptor>) returns (bytes: seq<Byte>)
    requires |ds| <= MAX_SEGMENTS
    ensures bytes == Encode(crc, tag, ds)
  {
    hide One;
    var preamble: seq<Byte> := [tag, |ds|];
    var i := 0;
    while i < |ds|
      invariant 0 <= i <= |ds| && preamble == [tag, |ds|] + Row(ds[..i])
    {
      RowMore(ds[..i], ds[i]);
      assert ds[..i + 1] == ds[..i] + [ds[i]];
      preamble := preamble + One(ds[i]);
      i := i + 1;
    }
    assert ds[..i] == ds;
    preamble := preamble + Zeros(BODY - 2 - 6 * |ds|);
    return preamble + Le(crc(0, preamble), 4);
  }

  lemma {:induction false} RowMore(ds: seq<Descriptor>, d: Descriptor)
    ensures Row(ds + [d]) == Row(ds) + One(d)
  {
    hide One;
    if ds == [] {
      assert ds + [d] == [d] && Row([d][1..]) == [];
    } else {
      RowMore(ds[1..], d);
      assert (ds + [d])[1..] == ds[1..] + [d];
    }
  }

  method DecodePreamble(crc: Checksum, bytes: seq<Byte>) returns (r: Option<(Byte, seq<Descriptor>)>)
    requires |bytes| == SIZE
    ensures r == Decode(crc, bytes)
  {
    hide UnOne, Slot;
    if crc(0, bytes[..BODY]) != UnLe(bytes[BODY..]) { return None; }
    if !ValidTag(bytes[0]) { return None; }
    var count := bytes[1];
    if count < 1 || count > MAX_SEGMENTS { return None; }
    if bytes[26] != 0 || bytes[27] != 0 { return None; }
    var ds := [];
    var i := 0;
    while i < MAX_SEGMENTS
      invariant 0 <= i <= MAX_SEGMENTS && |ds| == if i < count then i else count
      invariant forall j :: 0 <= j < |ds| ==> ds[j] == UnOne(Slot(bytes, j))
      invariant forall j :: count <= j < i ==> UnOne(Slot(bytes, j)) == Descriptor(0, 0)
    {
      var d := UnOne(Slot(bytes, i));
      if i < count { ds := ds + [d]; } else if d != Descriptor(0, 0) { return None; }
      i := i + 1;
    }
    assert ds == Descriptors(bytes, count);
    if count > 1 && ds[count - 1].length == 0 { return None; }
    return Some((bytes[0], ds));
  }
}
