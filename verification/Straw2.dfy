/** The straw2 draw of a CRUSH bucket: every item draws a straw, the longest wins. */
module Straw2 {

  type Word = x: int | 0 <= x < 0x1_0000_0000
  /** Fixed-point logarithms; crushLn stays below 2^48. */
  type Log = x: int | 0 <= x <= 0x1_0000_0000_0000

  const MIN_INT64: int := -0x8000_0000_0000_0000
  const UNIT: int := 0x1_0000_0000_0000

  /** The hash functions and the logarithm table, which placement only ever reads. */
  datatype Mixer = Mixer(pair: (Word, Word) -> Word, triple: (Word, Word, Word) -> Word, ln: Word -> Log)

  datatype Bucket = Bucket(id: int, kind: nat, items: seq<int>, weights: seq<Word>)

  /** The conversion of a signed integer to 32 unsigned bits. */
  function AsWord(x: int): (w: Word) { x % 0x1_0000_0000 }

  /** Division truncating toward zero, of a value that is not positive. */
  function Scaled(logarithm: int, weight: Word): (draw: int)
    requires logarithm <= 0 && weight != 0
    ensures logarithm <= draw <= 0
  {
    SmallerQuotient(-logarithm, weight);
    -(-logarithm / weight)
  }

  /** Products grow with a factor. */
  lemma {:induction false} ProductGrows(d: nat, a: nat, b: nat)
    requires a <= b
    ensures d * a <= d * b
    decreases b - a
  {
    if a < b { ProductGrows(d, a + 1, b); }
  }

  /** The quotient is the largest multiple that fits. */
  lemma QuotientAtLeast(n: nat, d: nat, q: nat)
    requires d != 0 && d * q <= n
    ensures q <= n / d
  {
    var k := n / d;
    if k < q {
      ProductGrows(d, k + 1, q);
      assert false;
    }
  }

  lemma SmallerQuotient(n: nat, d: nat)
    requires d != 0
    ensures 0 <= n / d <= n
  {
    var k := n / d;
    assert d * k <= n;
    ProductGrows(k, 1, d);
  }

  function Draw(m: Mixer, item: int, weight: Word, seed: Word, replica: int): (draw: int)
    ensures draw == MIN_INT64 || -UNIT <= draw <= 0
    ensures draw == MIN_INT64 <==> weight == 0
  {
    if weight == 0 then MIN_INT64
    else Scaled(m.ln(m.triple(seed, AsWord(item), AsWord(replica)) % 0x1_0000) - UNIT, weight)
  }

  ghost predicate WellFormed(bucket: Bucket) { bucket.items != [] && |bucket.items| == |bucket.weights| }

  function DrawAt(m: Mixer, bucket: Bucket, seed: Word, replica: int, i: nat): (draw: int)
    requires i < |bucket.items| == |bucket.weights|
  {
    Draw(m, bucket.items[i], bucket.weights[i], seed, replica)
  }

  /** `i` draws the longest straw; the earliest item wins a tie. */
  ghost predicate Wins(m: Mixer, bucket: Bucket, seed: Word, replica: int, i: nat)
    requires WellFormed(bucket)
  {
    && i < |bucket.items|
    && (forall j :: 0 <= j < |bucket.items| ==>
        DrawAt(m, bucket, seed, replica, j) <= DrawAt(m, bucket, seed, replica, i))
    && (forall j :: 0 <= j < i ==> DrawAt(m, bucket, seed, replica, j) < DrawAt(m, bucket, seed, replica, i))
  }

  /** The winner among the items from `from` on and the best one before. */
  function Best(m: Mixer, bucket: Bucket, seed: Word, replica: int, from: nat, high: nat): (winner: nat)
    requires WellFormed(bucket) && high < from <= |bucket.items|
    ensures winner < |bucket.items|
    decreases |bucket.items| - from
  {
    if from == |bucket.items| then high
    else if DrawAt(m, bucket, seed, replica, from) > DrawAt(m, bucket, seed, replica, high)
    then Best(m, bucket, seed, replica, from + 1, from)
    else Best(m, bucket, seed, replica, from + 1, high)
  }

  function Winner(m: Mixer, bucket: Bucket, seed: Word, replica: int): (winner: nat)
    requires WellFormed(bucket)
    ensures winner < |bucket.items|
  {
    Best(m, bucket, seed, replica, 1, 0)
  }

  lemma {:induction false} BestWins(m: Mixer, bucket: Bucket, seed: Word, replica: int, from: nat, high: nat)
    requires WellFormed(bucket) && high < from <= |bucket.items|
    requires forall j :: 0 <= j < from ==> DrawAt(m, bucket, seed, replica, j) <= DrawAt(m, bucket, seed, replica, high)
    requires forall j :: 0 <= j < high ==> DrawAt(m, bucket, seed, replica, j) < DrawAt(m, bucket, seed, replica, high)
    ensures Wins(m, bucket, seed, replica, Best(m, bucket, seed, replica, from, high))
    decreases |bucket.items| - from
  {
    if from < |bucket.items| {
      if DrawAt(m, bucket, seed, replica, from) > DrawAt(m, bucket, seed, replica, high) {
        BestWins(m, bucket, seed, replica, from + 1, from);
      } else {
        BestWins(m, bucket, seed, replica, from + 1, high);
      }
    }
  }

  lemma WinnerWins(m: Mixer, bucket: Bucket, seed: Word, replica: int)
    requires WellFormed(bucket)
    ensures Wins(m, bucket, seed, replica, Winner(m, bucket, seed, replica))
    ensures forall i :: Wins(m, bucket, seed, replica, i) ==> i == Winner(m, bucket, seed, replica)
  {
    hide Best;
    BestWins(m, bucket, seed, replica, 1, 0);
    var w := Winner(m, bucket, seed, replica);
    forall i | Wins(m, bucket, seed, replica, i)
      ensures i == w
    {
      assert DrawAt(m, bucket, seed, replica, i) <= DrawAt(m, bucket, seed, replica, w) <= DrawAt(m, bucket, seed,
          replica, i);
    }
  }

  /** The bucket's loop over its weights. */
  method Choose(m: Mixer, bucket: Bucket, seed: Word, replica: int) returns (item: int)
    requires WellFormed(bucket)
    ensures item == bucket.items[Winner(m, bucket, seed, replica)]
  {
    var high, highDraw := 0, 0;
    for index := 0 to |bucket.weights|
      invariant index > 0 ==> high < index && highDraw == DrawAt(m, bucket, seed, replica, high)
      invariant index > 0 ==> Best(m, bucket, seed, replica, index, high) == Winner(m, bucket, seed, replica)
    {
      var draw := MIN_INT64;
      if bucket.weights[index] != 0 {
        var random := m.triple(seed, AsWord(bucket.items[index]), AsWord(replica)) % 0x1_0000;
        draw := Scaled(m.ln(random) - UNIT, bucket.weights[index]);
      }
      if index == 0 || draw > highDraw {
        high, highDraw := index, draw;
      }
    }
    item := bucket.items[high];
  }

  // ---------------------------------------------------------------- moving little data

  /** The same bucket with another weight for item `j`. */
  function Reweighed(bucket: Bucket, j: nat, weight: Word): (other: Bucket)
    requires j < |bucket.weights|
  {
    bucket.(weights := bucket.weights[j := weight])
  }

  /** Changing one weight only moves data to or from that item. */
  lemma MovesMinimally(m: Mixer, bucket: Bucket, seed: Word, replica: int, j: nat, weight: Word)
    requires WellFormed(bucket) && j < |bucket.items|
    ensures var before := Winner(m, bucket, seed, replica);
            var after := Winner(m, Reweighed(bucket, j, weight), seed, replica);
      before == after || before == j || after == j
  {
    hide Winner, Draw;
    var other := Reweighed(bucket, j, weight);
    WinnerWins(m, bucket, seed, replica);
    WinnerWins(m, other, seed, replica);
    var before, after := Winner(m, bucket, seed, replica), Winner(m, other, seed, replica);
    assert forall i :: 0 <= i < |bucket.items| && i != j ==>
      DrawAt(m, other, seed, replica, i) == DrawAt(m, bucket, seed, replica, i);
    assert before < after ==> DrawAt(m, other, seed, replica, before) < DrawAt(m, other, seed, replica, after);
    assert after < before ==> DrawAt(m, bucket, seed, replica, after) < DrawAt(m, bucket, seed, replica, before);
  }

  /** A larger divisor does not give a larger quotient. */
  lemma QuotientShrinks(n: nat, small: nat, large: nat)
    requires 0 < small <= large
    ensures n / large <= n / small
  {
    var q := n / large;
    assert large * q <= n;
    ProductGrows(q, small, large);
    QuotientAtLeast(n, small, q);
  }

  lemma DrawGrows(m: Mixer, item: int, small: Word, large: Word, seed: Word, replica: int)
    requires small <= large
    ensures Draw(m, item, small, seed, replica) <= Draw(m, item, large, seed, replica)
  {
    if small != 0 {
      var n := UNIT - m.ln(m.triple(seed, AsWord(item), AsWord(replica)) % 0x1_0000);
      QuotientShrinks(n, small, large);
    }
  }

  /** Raising an item's weight never takes data from it. */
  lemma RaisingKeeps(m: Mixer, bucket: Bucket, seed: Word, replica: int, j: nat, weight: Word)
    requires WellFormed(bucket) && j < |bucket.items| && bucket.weights[j] <= weight
    requires Winner(m, bucket, seed, replica) == j
    ensures Winner(m, Reweighed(bucket, j, weight), seed, replica) == j
  {
    hide Winner, Draw;
    var other := Reweighed(bucket, j, weight);
    WinnerWins(m, bucket, seed, replica);
    WinnerWins(m, other, seed, replica);
    DrawGrows(m, bucket.items[j], bucket.weights[j], weight, seed, replica);
    assert forall i :: 0 <= i < |bucket.items| && i != j ==>
      DrawAt(m, other, seed, replica, i) == DrawAt(m, bucket, seed, replica, i);
    assert Wins(m, other, seed, replica, j);
  }

  /** An item without weight only wins when no item has weight; then the first item does. */
  lemma WeightlessLoses(m: Mixer, bucket: Bucket, seed: Word, replica: int)
    requires WellFormed(bucket)
    ensures var w := Winner(m, bucket, seed, replica);
      bucket.weights[w] == 0 <==> forall i :: 0 <= i < |bucket.weights| ==> bucket.weights[i] == 0
    ensures (forall i :: 0 <= i < |bucket.weights| ==> bucket.weights[i] == 0) ==> Winner(m, bucket, seed, replica) == 0
  {
    hide Winner;
    WinnerWins(m, bucket, seed, replica);
    var w := Winner(m, bucket, seed, replica);
    forall i | 0 <= i < |bucket.weights| && bucket.weights[w] == 0
      ensures bucket.weights[i] == 0
    {
      assert DrawAt(m, bucket, seed, replica, i) <= DrawAt(m, bucket, seed, replica, w);
    }
    assert 0 < w ==> DrawAt(m, bucket, seed, replica, 0) < DrawAt(m, bucket, seed, replica, w);
  }
}
