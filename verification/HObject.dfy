/** The order of objects in a placement group, and the ranges cut out of it. */
module HObject {

  /** An object or a position between objects. */
  datatype HObject = HObject(key: string, name: string, snapshot: nat, hash: bv32, max: bool, namespace: string,
                             pool: int)

  // ---------------------------------------------------------------- bits

  /** The bits of a hash in reverse, by swapping ever larger halves. */
  function ReverseBits(value: bv32): (r: bv32) {
    var a := ((value >> 1) & 0x5555_5555) | ((value & 0x5555_5555) << 1);
    var b := ((a >> 2) & 0x3333_3333) | ((a & 0x3333_3333) << 2);
    var c := ((b >> 4) & 0x0f0f_0f0f) | ((b & 0x0f0f_0f0f) << 4);
    var d := ((c >> 8) & 0x00ff_00ff) | ((c & 0x00ff_00ff) << 8);
    (d >> 16) | (d << 16)
  }

  /** Reversing twice gives the hash back, so no two hashes share a place. */
  lemma ReverseTwice(value: bv32)
    ensures ReverseBits(ReverseBits(value)) == value
  {
  }

  function Place(hash: bv32): (place: nat) { ReverseBits(hash) as nat }

  // ---------------------------------------------------------------- comparisons

  /** The sign of a comparison: below zero, zero or above. */
  function CompareInt(a: int, b: int): (r: int) { if a < b then -1 else if a > b then 1 else 0 }

  function CompareBool(a: bool, b: bool): (r: int) { if a == b then 0 else if !a then -1 else 1 }

  function CompareString(a: string, b: string): (r: int) {
    if a == [] && b == [] then 0
    else if a == [] then -1
    else if b == [] then 1
    else if a[0] != b[0] then (if a[0] < b[0] then -1 else 1)
    else CompareString(a[1..], b[1..])
  }

  function EffectiveKey(o: HObject): string { if o.key != "" then o.key else o.name }

  /** The comparison as written, one field after the other. */
  function Compare(a: HObject, b: HObject): (r: int) {
    if a.max && b.max then 0
    else if CompareBool(a.max, b.max) != 0 then CompareBool(a.max, b.max)
    else if CompareInt(a.pool, b.pool) != 0 then CompareInt(a.pool, b.pool)
    else if CompareInt(Place(a.hash), Place(b.hash)) != 0 then CompareInt(Place(a.hash), Place(b.hash))
    else if CompareString(a.namespace, b.namespace) != 0 then CompareString(a.namespace, b.namespace)
    else if (a.key != "" || b.key != "") && CompareString(EffectiveKey(a), EffectiveKey(b)) != 0
    then CompareString(EffectiveKey(a), EffectiveKey(b))
    else if CompareString(a.name, b.name) != 0 then CompareString(a.name, b.name)
    else CompareInt(a.snapshot, b.snapshot)
  }

  // ---------------------------------------------------------------- one lexicographic key

  function Lex(first: int, second: int): int { if first != 0 then first else second }

  /** Everything but the maximum has this key. */
  datatype Key = Key(pool: int, place: nat, namespace: string, key: string, name: string, snapshot: nat)

  function KeyOf(o: HObject): Key { Key(o.pool, Place(o.hash), o.namespace, EffectiveKey(o), o.name, o.snapshot) }

  function CompareKey(a: Key, b: Key): (r: int) {
    Lex(CompareInt(a.pool, b.pool), Lex(CompareInt(a.place, b.place), Lex(CompareString(a.namespace, b.namespace),
        Lex(CompareString(a.key, b.key), Lex(CompareString(a.name, b.name), CompareInt(a.snapshot, b.snapshot))))))
  }

  lemma {:induction false} SameString(a: string, b: string)
    ensures CompareString(a, b) == 0 <==> a == b
  {
    if a != [] && b != [] && a[0] == b[0] {
      SameString(a[1..], b[1..]);
      assert a == [a[0]] + a[1..] && b == [b[0]] + b[1..];
    }
  }

  /** The comparison is that of one lexicographic key, with the maximum above everything. */
  lemma CompareIsKeyOrder(a: HObject, b: HObject)
    ensures Compare(a, b) == if a.max && b.max then 0 else if a.max then 1 else if b.max then -1
            else CompareKey(KeyOf(a), KeyOf(b))
  {
    hide CompareString, Place;
    SameString(a.namespace, b.namespace);
    SameString(a.name, b.name);
    SameString(EffectiveKey(a), EffectiveKey(b));
  }

  // ---------------------------------------------------------------- a total preorder

  /** Three comparisons in a row that fit together. */
  predicate Fit(ab: int, bc: int, ac: int) {
    && (ab <= 0 && bc <= 0 ==> ac <= 0 && (ab < 0 || bc < 0 ==> ac < 0))
    && (ab >= 0 && bc >= 0 ==> ac >= 0 && (ab > 0 || bc > 0 ==> ac > 0))
  }

  predicate Opposed(ab: int, ba: int) { (ab < 0 <==> ba > 0) && (ab == 0 <==> ba == 0) && (ab > 0 <==> ba < 0) }

  lemma {:induction false} StringsFit(a: string, b: string, c: string)
    ensures Fit(CompareString(a, b), CompareString(b, c), CompareString(a, c))
    ensures Opposed(CompareString(a, b), CompareString(b, a))
  {
    if a != [] && b != [] {
      if c != [] { StringsFit(a[1..], b[1..], c[1..]); } else { StringsFit(a[1..], b[1..], []); }
    }
  }

  lemma KeysFit(a: Key, b: Key, c: Key)
    ensures Fit(CompareKey(a, b), CompareKey(b, c), CompareKey(a, c)) && Opposed(CompareKey(a, b), CompareKey(b, a))
  {
    hide CompareString;
    StringsFit(a.namespace, b.namespace, c.namespace);
    StringsFit(a.key, b.key, c.key);
    StringsFit(a.name, b.name, c.name);
  }

  /** Objects are totally preordered. */
  lemma TotalPreorder(a: HObject, b: HObject, c: HObject)
    ensures Compare(a, a) == 0 && Opposed(Compare(a, b), Compare(b, a))
    ensures Fit(Compare(a, b), Compare(b, c), Compare(a, c))
  {
    hide Compare, CompareKey, KeyOf;
    CompareIsKeyOrder(a, a);
    CompareIsKeyOrder(a, b);
    CompareIsKeyOrder(b, a);
    CompareIsKeyOrder(b, c);
    CompareIsKeyOrder(a, c);
    KeysFit(KeyOf(a), KeyOf(b), KeyOf(c));
    KeysFit(KeyOf(a), KeyOf(a), KeyOf(a));
    SameKey(KeyOf(a));
  }

  lemma SameKey(k: Key)
    ensures CompareKey(k, k) == 0
  {
    hide CompareString;
    SameString(k.namespace, k.namespace);
    SameString(k.key, k.key);
    SameString(k.name, k.name);
  }

  // ---------------------------------------------------------------- ranges

  predicate AtMost(a: HObject, b: HObject) { Compare(a, b) <= 0 }

  predicate Less(a: HObject, b: HObject) { Compare(a, b) < 0 }

  /** A range from `begin` up to but without `end`; a range of one when they are equal. */
  predicate Contains(begin: HObject, end: HObject, o: HObject) {
    if Compare(begin, end) == 0 then Compare(o, begin) == 0 else AtMost(begin, o) && Less(o, end)
  }

  /** Objects that compare equal differ in nothing that places them, below the maximum. */
  lemma EqualIsSame(a: HObject, b: HObject)
    ensures Compare(a, b) == 0 <==> (a.max && b.max) || (!a.max && !b.max && KeyOf(a) == KeyOf(b))
  {
    hide CompareString, Place, Compare;
    CompareIsKeyOrder(a, b);
    SameString(a.namespace, b.namespace);
    SameString(a.name, b.name);
    SameString(EffectiveKey(a), EffectiveKey(b));
  }

  /** A range with equal ends is that one object. Any other has its beginning and not its end, all
      that lies between two of its members or between its ends, and nothing below or above; with
      its ends the wrong way round it is empty. */
  lemma RangeIs(begin: HObject, end: HObject, a: HObject, b: HObject, o: HObject)
    ensures Compare(begin, end) == 0 ==> (Contains(begin, end, o) <==> Compare(o, begin) == 0)
    ensures Less(begin, end) ==> Contains(begin, end, begin) && !Contains(begin, end, end)
    ensures Less(begin, end) && Less(begin, o) && Less(o, end) ==> Contains(begin, end, o)
    ensures Contains(begin, end, a) && Contains(begin, end, b) && AtMost(a, o) && AtMost(o, b) ==>
              Contains(begin, end, o)
    ensures Less(o, begin) || Less(end, o) ==> !Contains(begin, end, o)
    ensures Less(end, begin) ==> !Contains(begin, end, o)
  {
    hide Compare;
    TotalPreorder(begin, end, begin);
    TotalPreorder(begin, begin, begin);
    TotalPreorder(end, end, end);
    TotalPreorder(begin, o, begin);
    TotalPreorder(end, o, end);
    TotalPreorder(begin, o, end);
    TotalPreorder(begin, a, o);
    TotalPreorder(o, b, end);
    TotalPreorder(b, begin, o);
    TotalPreorder(o, b, begin);
    TotalPreorder(begin, end, o);
    TotalPreorder(o, begin, end);
    TotalPreorder(a, o, b);
    TotalPreorder(a, begin, o);
  }

  /** Two ranges that meet make up the one from the first's beginning to the second's end. */
  lemma RangesMeet(begin: HObject, middle: HObject, end: HObject, o: HObject)
    requires Less(begin, middle) && Less(middle, end)
    ensures Contains(begin, end, o) <==> Contains(begin, middle, o) || Contains(middle, end, o)
    ensures !(Contains(begin, middle, o) && Contains(middle, end, o))
  {
    hide Compare;
    TotalPreorder(begin, middle, end);
    TotalPreorder(begin, o, middle);
    TotalPreorder(middle, o, end);
    TotalPreorder(begin, middle, o);
    TotalPreorder(o, middle, end);
    TotalPreorder(middle, end, o);
    TotalPreorder(o, middle, o);
  }
}
