/** The primary-first order of an erasure-coded placement group and its undo. */
module ShardOrder {

  /** How many shards below `n` are in the set, or outside it. */
  function Count(nonprimary: set<nat>, inside: bool, n: nat): (c: nat)
    ensures c <= n
  {
    if n == 0 then 0 else Count(nonprimary, inside, n - 1) + (if (n - 1 in nonprimary) == inside then 1 else 0)
  }

  /** The entries of the shards in the set, or outside it, in order. */
  function Select(nonprimary: set<nat>, inside: bool, s: seq<int>): (t: seq<int>)
    ensures |t| == Count(nonprimary, inside, |s|)
  {
    if s == [] then []
    else
      var n := |s| - 1;
      Select(nonprimary, inside, s[..n]) + (if (n in nonprimary) == inside then [s[n]] else [])
  }

  /** Entries of primary-capable shards first, then the others. */
  function PrimaryFirst(nonprimary: set<nat>, s: seq<int>): (t: seq<int>) {
    Select(nonprimary, false, s) + Select(nonprimary, true, s)
  }

  /** Where the entry of a shard stands in primary-first order. */
  function Where(nonprimary: set<nat>, n: nat, shard: nat): (p: nat)
    requires shard < n
    ensures p < n
  {
    CountsBelow(nonprimary, n, shard);
    CountsAdd(nonprimary, n);
    if shard in nonprimary then n - Count(nonprimary, true, n) + Count(nonprimary, true, shard)
    else Count(nonprimary, false, shard)
  }

  function Undo(nonprimary: set<nat>, t: seq<int>): (s: seq<int>)
    ensures |s| == |t|
  {
    seq(|t|, shard requires 0 <= shard < |t| => t[Where(nonprimary, |t|, shard)])
  }

  /** The shard whose entry stands at a position of primary-first order. */
  function UndoIndex(nonprimary: set<nat>, size: nat, position: nat): (shard: int)
    requires position < size
  {
    CountsAdd(nonprimary, size);
    PrimaryFirst(nonprimary, Canonical(size))[position]
  }

  function Canonical(size: nat): (s: seq<int>)
    ensures |s| == size && forall i :: 0 <= i < size ==> s[i] == i
  {
    seq(size, i => i)
  }

  // ---------------------------------------------------------------- counting

  lemma {:induction false} CountsAdd(nonprimary: set<nat>, n: nat)
    ensures Count(nonprimary, true, n) + Count(nonprimary, false, n) == n
  {
    if n > 0 { CountsAdd(nonprimary, n - 1); }
  }

  /** A shard is counted after itself. */
  lemma {:induction false} CountsBelow(nonprimary: set<nat>, n: nat, shard: nat)
    requires shard < n
    ensures Count(nonprimary, shard in nonprimary, shard) < Count(nonprimary, shard in nonprimary, n)
  {
    if shard < n - 1 { CountsBelow(nonprimary, n - 1, shard); }
  }

  lemma {:induction false} SelectAt(nonprimary: set<nat>, s: seq<int>, shard: nat)
    requires shard < |s|
    ensures Count(nonprimary, shard in nonprimary, shard) < |Select(nonprimary, shard in nonprimary, s)|
    ensures Select(nonprimary, shard in nonprimary, s)[Count(nonprimary, shard in nonprimary, shard)] == s[shard]
  {
    CountsBelow(nonprimary, |s|, shard);
    if shard < |s| - 1 {
      SelectAt(nonprimary, s[..|s| - 1], shard);
    }
  }

  /** Every counted position belongs to a shard. */
  lemma {:induction false} ShardCounted(nonprimary: set<nat>, inside: bool, n: nat, k: nat) returns (shard: nat)
    requires k < Count(nonprimary, inside, n)
    ensures shard < n && (shard in nonprimary) == inside && Count(nonprimary, inside, shard) == k
  {
    if k < Count(nonprimary, inside, n - 1) {
      shard := ShardCounted(nonprimary, inside, n - 1, k);
    } else {
      shard := n - 1;
    }
  }

  lemma PrimaryFirstAt(nonprimary: set<nat>, s: seq<int>, shard: nat)
    requires shard < |s|
    ensures |PrimaryFirst(nonprimary, s)| == |s|
    ensures PrimaryFirst(nonprimary, s)[Where(nonprimary, |s|, shard)] == s[shard]
  {
    hide Select, Count;
    CountsAdd(nonprimary, |s|);
    SelectAt(nonprimary, s, shard);
  }

  lemma ShardAt(nonprimary: set<nat>, n: nat, position: nat) returns (shard: nat)
    requires position < n
    ensures shard < n && Where(nonprimary, n, shard) == position
  {
    hide Count;
    CountsAdd(nonprimary, n);
    var primaries := Count(nonprimary, false, n);
    if position < primaries { shard := ShardCounted(nonprimary, false, n, position); }
    else { shard := ShardCounted(nonprimary, true, n, position - primaries); }
  }

  // ---------------------------------------------------------------- mutual inverses

  lemma UndoInverts(nonprimary: set<nat>, s: seq<int>)
    ensures Undo(nonprimary, PrimaryFirst(nonprimary, s)) == s
  {
    hide PrimaryFirst, Where;
    if s == [] { EmptyOrder(nonprimary); return; }
    PrimaryFirstAt(nonprimary, s, 0);
    forall shard | 0 <= shard < |s| ensures Undo(nonprimary, PrimaryFirst(nonprimary, s))[shard] == s[shard] {
      PrimaryFirstAt(nonprimary, s, shard);
    }
  }

  lemma EmptyOrder(nonprimary: set<nat>) ensures PrimaryFirst(nonprimary, []) == [] { }

  lemma PrimaryFirstInverts(nonprimary: set<nat>, t: seq<int>)
    ensures PrimaryFirst(nonprimary, Undo(nonprimary, t)) == t
  {
    hide PrimaryFirst, Where;
    if t == [] { EmptyOrder(nonprimary); return; }
    var s := Undo(nonprimary, t);
    PrimaryFirstAt(nonprimary, s, 0);
    forall position | 0 <= position < |t| ensures PrimaryFirst(nonprimary, s)[position] == t[position] {
      var shard := ShardAt(nonprimary, |t|, position);
      PrimaryFirstAt(nonprimary, s, shard);
    }
  }

  /** The undone index is the shard whose entry stands there, for every vector of that size. */
  lemma UndoIndexIsShard(nonprimary: set<nat>, s: seq<int>, position: nat)
    requires position < |s|
    ensures |PrimaryFirst(nonprimary, s)| == |s|
    ensures 0 <= UndoIndex(nonprimary, |s|, position) < |s|
    ensures s[UndoIndex(nonprimary, |s|, position)] == PrimaryFirst(nonprimary, s)[position]
  {
    hide PrimaryFirst, Where;
    var shard := ShardAt(nonprimary, |s|, position);
    PrimaryFirstAt(nonprimary, s, shard);
    PrimaryFirstAt(nonprimary, Canonical(|s|), shard);
  }

  // ---------------------------------------------------------------- as it runs

  method Reorder(nonprimary: set<nat>, source: seq<int>) returns (result: seq<int>)
    ensures result == PrimaryFirst(nonprimary, source)
  {
    result := [];
    var shard := 0;
    while shard < |source|
      invariant 0 <= shard <= |source| && result == Select(nonprimary, false, source[..shard])
    {
      assert source[..shard + 1][..shard] == source[..shard];
      if shard !in nonprimary { result := result + [source[shard]]; }
      shard := shard + 1;
    }
    assert source[..shard] == source;
    ghost var primaries := result;
    shard := 0;
    while shard < |source|
      invariant 0 <= shard <= |source| && result == primaries + Select(nonprimary, true, source[..shard])
    {
      assert source[..shard + 1][..shard] == source[..shard];
      if shard in nonprimary { result := result + [source[shard]]; }
      shard := shard + 1;
    }
    assert source[..shard] == source;
  }

  method UndoOrder(nonprimary: set<nat>, source: seq<int>) returns (result: seq<int>)
    ensures result == Undo(nonprimary, source)
  {
    var n := |source|;
    var nonprimaryIndex := n;
    var shard := 0;
    while shard < n
      invariant 0 <= shard <= n && nonprimaryIndex == n - Count(nonprimary, true, shard)
    {
      if shard in nonprimary { nonprimaryIndex := nonprimaryIndex - 1; }
      shard := shard + 1;
    }
    result := [];
    var primaryIndex := 0;
    shard := 0;
    while shard < n
      invariant 0 <= shard <= n == |source| && |result| == shard
      invariant primaryIndex == Count(nonprimary, false, shard)
      invariant nonprimaryIndex == n - Count(nonprimary, true, n) + Count(nonprimary, true, shard)
      invariant forall i :: 0 <= i < shard ==> result[i] == source[Where(nonprimary, n, i)]
    {
      CountsBelow(nonprimary, n, shard);
      CountsAdd(nonprimary, n);
      if shard in nonprimary {
        result := result + [source[nonprimaryIndex]];
        nonprimaryIndex := nonprimaryIndex + 1;
      } else {
        result := result + [source[primaryIndex]];
        primaryIndex := primaryIndex + 1;
      }
      shard := shard + 1;
    }
  }
}
