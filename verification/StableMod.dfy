/** Ceph's stable modulo: mapping a hash to a placement group when the number of
    groups is not a power of two, so that growing the number only splits groups.
    Unsigned 32-bit words are naturals below `MODULUS`. */
module StableMod {

  const MODULUS := 0x1_0000_0000

  function Pow2(k: nat): (power: nat)
    ensures power >= 1
  {
    if k == 0 then 1 else 2 * Pow2(k - 1)
  }

  /** Bitwise conjunction of two unsigned words. */
  function And(a: nat, b: nat): nat {
    if a == 0 || b == 0 then 0
    else 2 * And(a / 2, b / 2) + (if a % 2 == 1 && b % 2 == 1 then 1 else 0)
  }

  /** The low `k` bits of a word. */
  function Low(value: nat, k: nat): (low: nat)
    ensures low < Pow2(k)
  {
    if k == 0 then 0 else 2 * Low(value / 2, k - 1) + value % 2
  }

  /** How many bits it takes to write a word. */
  function Bits(value: nat): (k: nat)
    ensures value < Pow2(k)
    ensures value > 0 ==> k > 0 && Pow2(k - 1) <= value
  {
    if value == 0 then 0 else 1 + Bits(value / 2)
  }

  /** The group of a hash: its low bits, with one bit fewer when they name no group. */
  function Mod(value: nat, count: nat): (group: nat) {
    if count == 0 then 0
    else
      var k := Bits(count - 1);
      if Low(value, k) < count then Low(value, k) else if k == 0 then 0 else Low(value, k - 1)
  }

  // ---------------------------------------------------------------- bits

  lemma {:induction false} AndMask(value: nat, k: nat)
    ensures And(value, Pow2(k) - 1) == Low(value, k)
  {
    if value == 0 {
      LowOfSmall(0, k);
    } else if k > 0 {
      assert (Pow2(k) - 1) / 2 == Pow2(k - 1) - 1 && (Pow2(k) - 1) % 2 == 1;
      AndMask(value / 2, k - 1);
    }
  }

  lemma {:induction false} LowOfSmall(value: nat, k: nat)
    requires value < Pow2(k)
    ensures Low(value, k) == value
  {
    if k > 0 { LowOfSmall(value / 2, k - 1); }
  }

  lemma {:induction false} LowOfLow(value: nat, outer: nat, inner: nat)
    requires inner <= outer
    ensures Low(Low(value, outer), inner) == Low(value, inner)
  {
    if inner > 0 { LowOfLow(value / 2, outer - 1, inner - 1); }
  }

  lemma {:induction false} Pow2Grows(small: nat, large: nat)
    requires small <= large
    ensures Pow2(small) <= Pow2(large)
  {
    if small < large { Pow2Grows(small, large - 1); }
  }

  lemma {:induction false} BitsGrow(small: nat, large: nat)
    requires small <= large
    ensures Bits(small) <= Bits(large)
  {
    if small > 0 { BitsGrow(small / 2, large / 2); }
  }

  /** The only width a word fits in without a leading zero is its own. */
  lemma BitsUnique(value: nat, k: nat)
    requires value > 0 && k > 0 && Pow2(k - 1) <= value < Pow2(k)
    ensures Bits(value) == k
  {
    if Bits(value) < k { Pow2Grows(Bits(value), k - 1); }
    if k < Bits(value) { Pow2Grows(k, Bits(value) - 1); }
  }

  // ---------------------------------------------------------------- the computation as written

  /** Testing one bit of a word that has no higher bits compares it with that bit. */
  lemma {:induction false} AndBit(value: nat, k: nat)
    requires value < Pow2(k + 1)
    ensures And(value, Pow2(k)) == 0 <==> value < Pow2(k)
  {
    if value > 0 {
      if k == 0 {
        assert And(0, 0) == 0;
        assert value == 1;
      } else {
        assert Pow2(k) / 2 == Pow2(k - 1) && Pow2(k) % 2 == 0;
        AndBit(value / 2, k - 1);
      }
    }
  }

  lemma WordSizes()
    ensures Pow2(32) == MODULUS && Pow2(31) == 0x8000_0000
  {
    assert Pow2(8) == 0x100;
    assert Pow2(16) == 0x1_0000;
    assert Pow2(24) == 0x100_0000;
    assert Pow2(31) == 0x8000_0000;
  }

  /** Counts how far the value can be shifted before its top bit is set. */
  method LeadingZeros(value: nat) returns (count: nat)
    requires value < MODULUS
    ensures count <= 32 && Bits(value) == 32 - count
  {
    hide And, Bits, Pow2;
    WordSizes();
    if value == 0 { BitsOfZero(); return 32; }
    count := 0;
    var shifted := value;
    assert value * Pow2(0) == value by { PowerOfZero(); }
    AndBit(shifted, 31);
    while And(shifted, 0x8000_0000) == 0
      invariant count < 32 && shifted == value * Pow2(count) < MODULUS
      invariant And(shifted, 0x8000_0000) == 0 <==> shifted < 0x8000_0000
      decreases 32 - count
    {
      ShiftOnce(value, count);
      count := count + 1;
      shifted := (shifted * 2) % MODULUS;
      AndBit(shifted, 31);
    }
    ShiftedOut(value, count);
  }

  lemma BitsOfZero() ensures Bits(0) == 0 { }

  lemma PowerOfZero() ensures Pow2(0) == 1 { }

  lemma ShiftOnce(value: nat, count: nat)
    requires value > 0 && count < 32 && value * Pow2(count) < Pow2(31)
    ensures count < 31 && value * Pow2(count + 1) == 2 * (value * Pow2(count))
  {
    assert value * Pow2(count) >= Pow2(count) by { ProductAtLeast(value, Pow2(count)); }
    if count == 31 { assert false; }
    Doubles(value, Pow2(count));
  }

  lemma Doubles(value: nat, power: nat) ensures value * (2 * power) == 2 * (value * power) { }

  lemma ProductAtLeast(value: nat, power: nat)
    requires value > 0
    ensures value * power >= power
  {
  }

  lemma {:induction false} ShiftedOut(value: nat, count: nat)
    requires value > 0 && count < 32 && Pow2(31) <= value * Pow2(count) < Pow2(32)
    ensures Bits(value) == 32 - count
  {
    PowersSplit(31 - count, count);
    PowersSplit(32 - count, count);
    LessByFactor(Pow2(31 - count), value, Pow2(count));
    LessByFactor(value, Pow2(32 - count), Pow2(count));
    BitsUnique(value, 32 - count);
  }

  lemma LessByFactor(a: nat, b: nat, factor: nat)
    requires factor > 0
    ensures a * factor <= b * factor ==> a <= b
    ensures a * factor < b * factor ==> a < b
  {
    if a > b { assert a * factor == b * factor + (a - b) * factor; ProductAtLeast(a - b, factor); }
  }

  lemma {:induction false} PowersSplit(a: nat, b: nat)
    ensures Pow2(a + b) == Pow2(a) * Pow2(b)
  {
    if b > 0 { PowersSplit(a, b - 1); Doubles(Pow2(a), Pow2(b - 1)); }
  }

  /** The computation as it is written: masks built from the leading zeros. */
  method StableMod(value: nat, count: nat) returns (group: nat)
    requires value < MODULUS && count < MODULUS
    ensures group == Mod(value, count)
  {
    hide And, Low, Bits, Pow2;
    if count == 0 { return 0; }
    var zeros := LeadingZeros(count - 1);
    var mask := Pow2(32 - zeros) - 1;
    AndMask(value, 32 - zeros);
    if And(value, mask) < count { return And(value, mask); }
    HalfMask(value, 32 - zeros);
    return And(value, mask / 2);
  }

  lemma HalfMask(value: nat, k: nat)
    requires Low(value, k) >= 1
    ensures k > 0 && And(value, (Pow2(k) - 1) / 2) == Low(value, k - 1)
  {
    AndMask(value, k - 1);
    assert (Pow2(k) - 1) / 2 == Pow2(k - 1) - 1;
  }

  // ---------------------------------------------------------------- stability

  lemma InRange(value: nat, count: nat)
    requires count > 0
    ensures Mod(value, count) < count
  {
  }

  /** The group under the smaller number only depends on the group under the larger. */
  lemma Nests(value: nat, count: nat, more: nat)
    requires 1 <= count <= more
    ensures Mod(Mod(value, more), count) == Mod(value, count)
  {
    hide Low, Bits, Pow2;
    var inner, outer := Bits(count - 1), Bits(more - 1);
    BitsGrow(count - 1, more - 1);
    LowOfLow(value, outer, inner);
    if inner > 0 { LowOfLow(value, outer, inner - 1); LowOfLow(value, inner, inner - 1); }
    if Low(value, outer) >= more {
      LowPositive(value, outer);
      if inner < outer {
        LowOfLow(value, outer - 1, inner);
        if inner > 0 { LowOfLow(value, outer - 1, inner - 1); }
      } else {
        InRange(value, count);
        Fixed(Low(value, inner - 1), count);
      }
    }
  }

  lemma LowPositive(value: nat, k: nat)
    requires Low(value, k) >= 1
    ensures k > 0
  {
  }

  /** A number that already names a group is its own group. */
  lemma Fixed(group: nat, count: nat)
    requires group < count
    ensures Mod(group, count) == group
  {
    LowOfSmall(group, Bits(count - 1));
  }

  /** Growing the number of groups leaves a hash where it was or moves it to a new group. */
  lemma OnlySplits(value: nat, count: nat, more: nat)
    requires 1 <= count <= more
    ensures Mod(value, more) == Mod(value, count) || Mod(value, more) >= count
  {
    hide Mod;
    Nests(value, count, more);
    if Mod(value, more) < count { Fixed(Mod(value, more), count); }
  }

  /** Objects of one placement group are always placed by the same seed: the seed is
      taken under the placement count, which never exceeds the number of groups. */
  lemma SameGroupSameSeed(a: nat, b: nat, placement: nat, groups: nat)
    requires 1 <= placement <= groups && Mod(a, groups) == Mod(b, groups)
    ensures Mod(a, placement) == Mod(b, placement)
  {
    hide Mod;
    Nests(a, placement, groups);
    Nests(b, placement, groups);
  }
}
