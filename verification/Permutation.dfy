/** The lazily extended shuffle of a bucket's items that placement falls back to. */
module Permutation {
  import opened Straw2

  /** The count that marks a cache holding only its first entry. A shuffle of that many draws
      has the same count; taking it for the mark only makes the cache draw again. */
  const FIRST_ONLY := 0xffff

  /** Positions are 32-bit words, as are the item counts of a decoded map. */
  const MAX_ITEMS := 0x1_0000_0000

  // ---------------------------------------------------------------- the shuffle

  function Swapped(s: seq<nat>, i: nat, j: nat): (t: seq<nat>)
    requires i < |s| && j < |s|
    ensures |t| == |s|
  {
    s[i := s[j]][j := s[i]]
  }

  function Identity(n: nat): (s: seq<nat>)
    ensures |s| == n && forall i :: 0 <= i < n ==> s[i] == i
  {
    seq(n, i => i)
  }

  /** Which of the entries from `k` on is drawn into position `k`. */
  function Drawn(m: Mixer, seed: Word, id: int, n: nat, k: nat): (j: nat)
    requires k < n
    ensures k <= j < n
  {
    k + m.triple(seed, AsWord(id), AsWord(k)) % (n - k)
  }

  /** The Fisher-Yates shuffle of `n` entries after `k` draws. */
  function Shuffled(m: Mixer, seed: Word, id: int, n: nat, k: nat): (s: seq<nat>)
    requires k <= n
    ensures |s| == n
  {
    if k == 0 then Identity(n)
    else Swapped(Shuffled(m, seed, id, n, k - 1), k - 1, Drawn(m, seed, id, n, k - 1))
  }

  /** The replica number as an unsigned word, modulo the number of items. */
  function Position(replica: int, n: nat): (p: nat)
    requires n > 0
    ensures p < n
  {
    AsWord(replica) % n
  }

  lemma SmallMod(p: nat, n: nat)
    requires p < n
    ensures p % n == p
  {
  }

  lemma PositionOf(p: nat, n: nat)
    requires p < n <= MAX_ITEMS
    ensures Position(p, n) == p
  {
    assert AsWord(p) == p;
    SmallMod(p, n);
  }

  /** The item a complete fresh shuffle for this seed has at the replica's position. */
  function Choice(m: Mixer, bucket: Bucket, seed: Word, replica: int): (item: int)
    requires bucket.items != []
    ensures item in bucket.items
  {
    var n := |bucket.items|;
    var index := Shuffled(m, seed, bucket.id, n, n)[Position(replica, n)];
    EntriesInRange(m, seed, bucket.id, n, n, Position(replica, n));
    bucket.items[index]
  }

  lemma {:induction false} EntriesInRange(m: Mixer, seed: Word, id: int, n: nat, k: nat, p: nat)
    requires k <= n && p < n
    ensures Shuffled(m, seed, id, n, k)[p] < n
  {
    if k > 0 {
      EntriesInRange(m, seed, id, n, k - 1, p);
      EntriesInRange(m, seed, id, n, k - 1, k - 1);
      EntriesInRange(m, seed, id, n, k - 1, Drawn(m, seed, id, n, k - 1));
    }
  }

  /** Positions that have been drawn keep their entry through every later draw. */
  lemma {:induction false} DrawnStays(m: Mixer, seed: Word, id: int, n: nat, k: nat, later: nat, p: nat)
    requires p < k <= later <= n
    ensures Shuffled(m, seed, id, n, later)[p] == Shuffled(m, seed, id, n, k)[p]
  {
    if k < later { DrawnStays(m, seed, id, n, k, later - 1, p); }
  }

  /** Where the shuffle has put an entry. */
  function Where(m: Mixer, seed: Word, id: int, n: nat, k: nat, entry: nat): (p: nat)
    requires k <= n && entry < n
    ensures p < n && Shuffled(m, seed, id, n, k)[p] == entry
  {
    if k == 0 then entry
    else
      var p := Where(m, seed, id, n, k - 1, entry);
      var a, b := k - 1, Drawn(m, seed, id, n, k - 1);
      if p == a then b else if p == b then a else p
  }

  /** No entry is in two positions. */
  lemma {:induction false} EntriesDiffer(m: Mixer, seed: Word, id: int, n: nat, k: nat, p: nat, q: nat)
    requires k <= n && p < q < n
    ensures Shuffled(m, seed, id, n, k)[p] != Shuffled(m, seed, id, n, k)[q]
  {
    if k > 0 {
      var a, b := k - 1, Drawn(m, seed, id, n, k - 1);
      var p', q' := Before(p, a, b), Before(q, a, b);
      if p' < q' { EntriesDiffer(m, seed, id, n, k - 1, p', q'); }
          else { EntriesDiffer(m, seed, id, n, k - 1, q', p'); }
    }
  }

  function Before(p: nat, a: nat, b: nat): nat { if p == a then b else if p == b then a else p }

  lemma OnlyAt(m: Mixer, seed: Word, id: int, n: nat, p: nat)
    requires p < n
    ensures forall q {:trigger Shuffled(m, seed, id, n, n)[q]} :: 0 <= q < n && q != p ==>
                Shuffled(m, seed, id, n, n)[q] != Shuffled(m, seed, id, n, n)[p]
  {
    hide Shuffled;
    forall q | 0 <= q < n && q != p ensures Shuffled(m, seed, id, n, n)[q] != Shuffled(m, seed, id, n, n)[p] {
      if p < q { EntriesDiffer(m, seed, id, n, n, p, q); } else { EntriesDiffer(m, seed, id, n, n, q, p); }
    }
  }

  lemma ChoiceAt(m: Mixer, bucket: Bucket, seed: Word, p: nat)
    requires p < |bucket.items| <= MAX_ITEMS
    ensures Shuffled(m, seed, bucket.id, |bucket.items|, |bucket.items|)[p] < |bucket.items|
    ensures Choice(m, bucket, seed, p) == bucket.items[Shuffled(m, seed, bucket.id, |bucket.items|, |bucket.items|)[p]]
  {
    hide Shuffled, Position;
    EntriesInRange(m, seed, bucket.id, |bucket.items|, |bucket.items|, p);
    PositionOf(p, |bucket.items|);
  }

  /** The positions 0 to n - 1 select every index of the bucket exactly once. */
  lemma EachIndexOnce(m: Mixer, bucket: Bucket, seed: Word, index: nat) returns (p: nat)
    requires index < |bucket.items| <= MAX_ITEMS
    ensures p < |bucket.items| && Choice(m, bucket, seed, p) == bucket.items[index]
    ensures Shuffled(m, seed, bucket.id, |bucket.items|, |bucket.items|)[p] == index
    ensures forall q {:trigger Shuffled(m, seed, bucket.id, |bucket.items|, |bucket.items|)[q]} ::
              0 <= q < |bucket.items| && q != p ==>
                Shuffled(m, seed, bucket.id, |bucket.items|, |bucket.items|)[q] != index
  {
    hide Shuffled, Where, Choice;
    p := Where(m, seed, bucket.id, |bucket.items|, |bucket.items|, index);
    OnlyAt(m, seed, bucket.id, |bucket.items|, p);
    ChoiceAt(m, bucket, seed, p);
  }

  // ---------------------------------------------------------------- the cache

  /** What one bucket's cache has drawn so far, for the last seed it was asked about. */
  class Cache {
    var x: Word
    var count: nat
    var items: array<nat>

    constructor (n: nat)
      ensures x == 0 && count == 0 && items.Length == n && fresh(items)
    {
      x, count := 0, 0;
      items := new nat[n];
    }

    ghost predicate Valid(m: Mixer, id: int, n: nat)
      reads this, items
    {
      && 0 < n && items.Length == n
      && (count == 0
          || (count == FIRST_ONLY && items[0] == Shuffled(m, x, id, n, 1)[0])
          || (count <= n && items[..] == Shuffled(m, x, id, n, count)))
    }

    method Fill(from: nat)
      requires from <= items.Length
      modifies items
      ensures items[..from] == old(items[..from])
      ensures forall i :: from <= i < items.Length ==> items[i] == i
    {
      var i := from;
      while i < items.Length
        invariant from <= i <= items.Length
        invariant items[..from] == old(items[..from])
        invariant forall j :: from <= j < i ==> items[j] == j
      {
        items[i] := i;
        i := i + 1;
      }
    }

    /** Starts again after one draw, from the first entry. */
    method Widen(ghost m: Mixer, ghost id: int, ghost n: nat)
      requires Valid(m, id, n) && count == FIRST_ONLY
      modifies `count, items
      ensures Valid(m, id, n) && count == 1 && items[..] == Shuffled(m, x, id, n, 1)
    {
      if count <= n && items[..] == Shuffled(m, x, id, n, count) { DrawnStays(m, x, id, n, 1, count, 0); }
      ghost var drawn := Drawn(m, x, id, n, 0);
      assert Shuffled(m, x, id, n, 0) == Identity(n);
      assert items[0] == drawn;
      Fill(1);
      items[items[0]] := 0;
      count := 1;
      assert items[..] == Swapped(Identity(n), 0, drawn);
    }

    /** Draws until the position is settled. */
    method Extend(m: Mixer, id: int, position: nat, ghost n: nat)
      requires Valid(m, id, n) && position < n && count <= n && items[..] == Shuffled(m, x, id, n, count)
      modifies `count, items
      ensures Valid(m, id, n) && position < count <= n && items[..] == Shuffled(m, x, id, n, count)
    {
      while count <= position
        invariant Valid(m, id, n) && count <= n && items[..] == Shuffled(m, x, id, n, count)
        decreases n - count
      {
        DrawOne(m, id, n);
      }
    }

    method DrawOne(m: Mixer, id: int, ghost n: nat)
      requires items.Length == n && count < n && items[..] == Shuffled(m, x, id, n, count)
      modifies `count, items
      ensures count == old(count) + 1 && items[..] == Shuffled(m, x, id, n, count)
    {
      ghost var was := items[..];
      ghost var drawn := Drawn(m, x, id, n, count);
      if count < items.Length - 1 {
        var offset := m.triple(x, AsWord(id), AsWord(count)) % (items.Length - count);
        if offset != 0 {
          items[count], items[count + offset] := items[count + offset], items[count];
        }
      }
      count := count + 1;
      assert items[..] == Swapped(was, count - 1, drawn);
    }

    /** Whatever the cache has seen before, the answer is that of a fresh shuffle. */
    method Choose(m: Mixer, bucket: Bucket, seed: Word, replica: int) returns (item: int)
      requires Valid(m, bucket.id, |bucket.items|)
      modifies this, items
      ensures Valid(m, bucket.id, |bucket.items|) && items == old(items)
      ensures item == Choice(m, bucket, seed, replica)
    {
      ghost var n := |bucket.items|;
      var position := Position(replica, |bucket.items|);
      if x != seed || count == 0 {
        x := seed;
        if position == 0 {
          var selected := m.triple(seed, AsWord(bucket.id), 0) % |bucket.items|;
          assert Shuffled(m, seed, bucket.id, n, 0) == Identity(n);
          assert Shuffled(m, seed, bucket.id, n, 1)[0] == selected;
          items[0] := selected;
          count := FIRST_ONLY;
          DrawnStays(m, seed, bucket.id, n, 1, n, 0);
          return bucket.items[selected];
        }
        Fill(0);
        count := 0;
        assert items[..] == Identity(n);
      } else if count == FIRST_ONLY {
        Widen(m, bucket.id, n);
      }
      Extend(m, bucket.id, position, n);
      DrawnStays(m, seed, bucket.id, n, count, n, position);
      EntriesInRange(m, seed, bucket.id, n, count, position);
      return bucket.items[items[position]];
    }
  }

  /** The caches of one placement, created on first use and keyed by bucket. */
  class Caches {
    const m: Mixer
    ghost const buckets: map<int, Bucket>
    var entries: map<int, Cache>
    ghost var Repr: set<object>

    constructor (m: Mixer, ghost buckets: map<int, Bucket>)
      ensures Valid() && entries == map[] && this.m == m && this.buckets == buckets && fresh(Repr)
    {
      this.m, this.buckets, entries := m, buckets, map[];
      Repr := {this};
    }

    ghost predicate Valid()
      reads this, Repr
    {
      && this in Repr
      && (forall id :: id in entries ==>
            && id in buckets && entries[id] in Repr && entries[id].items in Repr
            && entries[id].Valid(m, id, |buckets[id].items|))
      && (forall id, other :: id in entries && other in entries && id != other ==>
            entries[id] != entries[other] && entries[id].items != entries[other].items)
    }

    /** The answer is that of a fresh shuffle, and no bucket's cache is disturbed by another. */
    method Choose(bucket: Bucket, seed: Word, replica: int) returns (item: int)
      requires Valid() && bucket.id in buckets && buckets[bucket.id] == bucket
      requires bucket.items != []
      modifies Repr
      ensures Valid() && fresh(Repr - old(Repr)) && entries.Keys == old(entries.Keys) + {bucket.id}
      ensures item == Choice(m, bucket, seed, replica)
    {
      hide Cache.Valid, Choice;
      if bucket.id !in entries { Open(bucket); }
      item := Ask(bucket, seed, replica);
    }

    /** A bucket asked about for the first time gets an empty cache. */
    method Open(bucket: Bucket)
      requires Valid() && bucket.id in buckets && buckets[bucket.id] == bucket && bucket.id !in entries
               && bucket.items != []
      modifies this
      ensures Valid() && fresh(Repr - old(Repr)) && old(Repr) <= Repr && entries.Keys == old(entries.Keys) + {bucket.id}
    {
      var cache := new Cache(|bucket.items|);
      entries := entries[bucket.id := cache];
      Repr := Repr + {cache, cache.items};
    }

    method Ask(bucket: Bucket, seed: Word, replica: int) returns (item: int)
      requires Valid() && bucket.id in entries && buckets[bucket.id] == bucket
      modifies Repr - {this}
      ensures Valid() && Repr == old(Repr) && entries == old(entries)
      ensures item == Choice(m, bucket, seed, replica)
    {
      hide Choice, Shuffled;
      item := entries[bucket.id].Choose(m, bucket, seed, replica);
    }
  }
}
