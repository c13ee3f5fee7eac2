/** Placement as it runs: nested retry loops writing output and leaf arrays. */
module CrushPlace {
  import opened Straw2
  import opened CrushGraph
  import opened CrushSearch
  import Permutation

  /** The shuffle caches belong to this placement, and share nothing with its arrays. */
  ghost predicate Serves(caches: Permutation.Caches, w: World)
    reads caches, caches.Repr
  {
    caches.Valid() && caches.m == w.mixer && caches.buckets == w.g.buckets
  }

  ghost predicate Apart(caches: Permutation.Caches, output: array<int>, leaves: array?<int>)
    reads caches
  {
    output !in caches.Repr && (leaves != null ==> leaves !in caches.Repr) && output != leaves
  }

  method NewCaches(w: World) returns (caches: Permutation.Caches)
    ensures Serves(caches, w) && fresh(caches.Repr)
  {
    caches := new Permutation.Caches(w.mixer, w.g.buckets);
  }

  /** What one look into a bucket leads to. */
  datatype Next = Accept(item: int) | GiveUp | Enter(child: int) | Stay | Restart

  /** The recursive call of a leaf search looks for exactly one replica. */
  lemma LeafIsOne(w: World, e: Effort, seed: Word, item: int, r: nat, position: nat, count: nat, leaves: seq<int>)
    requires Usable(w.g) && item in w.g.buckets && count > 0
    ensures var first := if e.stable then 0 else position;
            var subR := if e.varyR == 0 then 0 else Shift(r, e.varyR - 1);
            FirstN(w, LeafEffort(e), seed, 0, false, subR, item, first, first + 1, count, leaves, []).0
            == match Search(w, LeafEffort(e), seed, 0, false, LeafBase(e, r, position), leaves, [], item, item, 0, 0)
               case Skipped => leaves
               case Found(leaf, _) => leaves + [leaf]
  {
    hide Search, Shift;
  }

  /** What follows a failed look. */
  method Retry(w: World, e: Effort, ghost seed: Word, ghost kind: int, ghost leafward: bool, ghost base: nat,
               ghost taken: seq<int>,
               ghost under: seq<int>, ghost root: int, at: int, total: nat, local: nat, collided: bool)
    returns (next: Next)
    requires Usable(w.g) && root in w.g.buckets && at in w.g.buckets
    ensures var found := Again(w, e, seed, kind, leafward, base, taken, under, root, at, total, local, collided);
            match next
            case GiveUp => found == Skipped
            case Stay => found == Search(w, e, seed, kind, leafward, base, taken, under, root, at, total + 1, local + 1)
                         && local < Most(e, w.g.buckets[at])
            case Restart => total + 1 < e.tries
                            && found == Search(w, e, seed, kind, leafward, base, taken, under, root, root, total + 1, 0)
            case _ => false
  {
    hide Search, Usable, Serves;
    if collided && local + 1 <= e.localRetries { return Stay; }
    if e.fallbackRetries > 0 && local + 1 <= |w.g.buckets[at].items| + e.fallbackRetries { return Stay; }
    if total + 1 < e.tries { return Restart; }
    return GiveUp;
  }

  /** An item by straws, or by shuffling once retries inside the bucket have gone on for long. */
  method PickItem(w: World, e: Effort, caches: Permutation.Caches, bucket: Bucket, seed: Word, r: int,
                  local: nat) returns (item: int)
    requires WellFormed(bucket) && Serves(caches, w) && bucket.id in w.g.buckets && w.g.buckets[bucket.id] == bucket
    modifies caches.Repr
    ensures Serves(caches, w) && fresh(caches.Repr - old(caches.Repr))
    ensures item == Select(w, e, bucket, seed, r, local)
  {
    hide Permutation.Choice, Winner;
    if e.fallbackRetries > 0 && local >= |bucket.items| / 2 && local > e.fallbackRetries {
      item := caches.Choose(bucket, seed, r);
    } else {
      item := Straw2.Choose(w.mixer, bucket, seed, r);
    }
  }

  /** Finds the device under an item; refuses the item when there is none. */
  method FindLeaf(w: World, e: Effort, caches: Permutation.Caches, seed: Word, item: int, r: nat, leaves: array<int>,
                  from: nat, position: nat, count: nat, ghost under: seq<int>)
    returns (rejected: bool)
    requires Usable(w.g) && item in w.g.buckets && count > 0 && Serves(caches, w) && Apart(caches, leaves, null)
    requires from + position + count <= leaves.Length && under == leaves[from..from + position]
    modifies leaves, caches.Repr
    ensures Serves(caches, w) && fresh(caches.Repr - old(caches.Repr))
    ensures leaves[..from + position] == old(leaves[..from + position])
    ensures var leaf := Search(w, LeafEffort(e), seed, 0, false, LeafBase(e, r, position), under, [], item, item, 0, 0);
            rejected == leaf.Skipped? && (leaf.Found? ==> leaves[from + position] == leaf.item)
    decreases 0, 3
  {
    hide Search, Usable, Shift, FirstN, Serves;
    var subR := if e.varyR == 0 then 0 else Shift(r, e.varyR - 1);
    var first := if e.stable then 0 else position;
    LeafIsOne(w, e, seed, item, r, position, count, under);
    var chosen := ChooseFirstN(w, LeafEffort(e), caches, seed, 0, false, subR, item, first, first + 1, leaves, null,
                               from, position, count, []);
    rejected := chosen <= position;
    assert !rejected ==> leaves[from + position] == leaves[from..from + chosen][position];
  }

  /** What a look at one item leads to. */
  ghost predicate Leads(w: World, e: Effort, seed: Word, kind: int, leafward: bool, base: nat, taken: seq<int>,
                        under: seq<int>,
                        root: int, at: int, total: nat, local: nat, next: Next, leaf: int)
    requires Usable(w.g) && root in w.g.buckets && at in w.g.buckets
  {
    var found := Search(w, e, seed, kind, leafward, base, taken, under, root, at, total, local);
    match next
    case Accept(item) => found.Found? && found.item == item && (leafward ==> leaf == found.leaf)
    case GiveUp => found == Skipped
    case Enter(child) => child in w.g.buckets && Child(w.g, at, child)
                         && found == Search(w, e, seed, kind, leafward, base, taken, under, root, child, total, local)
    case Stay => found == Search(w, e, seed, kind, leafward, base, taken, under, root, at, total + 1, local + 1)
                 && local < Most(e, w.g.buckets[at])
    case Restart => total + 1 < e.tries
                    && found == Search(w, e, seed, kind, leafward, base, taken, under, root, root, total + 1, 0)
  }

  /** Looks into bucket `at` once: picks an item and decides what follows. */
  method Look(w: World, e: Effort, caches: Permutation.Caches, seed: Word, kind: int, leafward: bool, base: nat,
              output: array<int>, leaves: array?<int>, from: nat, position: nat, count: nat, ghost under: seq<int>,
                  ghost root: int, at: int, total: nat, local: nat)
    returns (next: Next)
    requires Usable(w.g) && root in w.g.buckets && at in w.g.buckets && count > 0 && Serves(caches, w)
             && Apart(caches, output, leaves)
    requires from + position + count <= output.Length
    requires leafward ==> leaves != null && leaves.Length == output.Length && under == leaves[from..from + position]
    modifies if leafward then {leaves} else {}, caches.Repr
    ensures Serves(caches, w) && fresh(caches.Repr - old(caches.Repr))
    ensures leafward ==> leaves[..from + position] == old(leaves[..from + position])
    ensures Leads(w, e, seed, kind, leafward, base, output[from..from + position], under, root, at, total, local,
                  next, if leafward then leaves[from + position] else 0)
    decreases if leafward then 1 else 0, 0
  {
    hide Again, IsOut, Shift, Select, Usable, Serves;
    var bucket := w.g.buckets[at];
    assert |bucket.items| == |bucket.weights| && bucket.id == at by { UsableFiled(w.g, at); }
    ghost var taken := output[from..from + position];
    var collided := false;
    if bucket.items != [] {
      var item := PickItem(w, e, caches, bucket, seed, base + total, local);
      if item >= w.g.maxDevices { return GiveUp; }
      if item < 0 && item !in w.g.buckets { return GiveUp; }
      if KindOf(w, item) != kind {
        if item >= 0 { return GiveUp; }
        return Enter(item);
      }
      collided := Collides(output, from, position, item);
      if !collided {
        var rejected := false;
        if leafward {
          if item < 0 {
            rejected := FindLeaf(w, e, caches, seed, item, base + total, leaves, from, position, count, under);
          } else {
            leaves[from + position] := item;
          }
        }
        if !rejected && KindOf(w, item) == 0 { rejected := IsOut(w, item, seed); }
        if !rejected { return Accept(item); }
      }
    }
    next := Retry(w, e, seed, kind, leafward, base, taken, under, root, at, total, local, collided);
  }

  lemma UsableFiled(g: Graph, id: int)
    requires Usable(g) && id in g.buckets
    ensures |g.buckets[id].items| == |g.buckets[id].weights| && g.buckets[id].id == id
  {
    assert Identified(id, g.buckets[id]);
  }

  method Collides(output: array<int>, from: nat, position: nat, item: int) returns (collided: bool)
    requires from + position <= output.Length
    ensures collided <==> item in output[from..from + position]
  {
    var index := 0;
    while index < position
      invariant 0 <= index <= position && item !in output[from..from + index]
    {
      if output[from + index] == item { return true; }
      index := index + 1;
    }
    return false;
  }

  /** The retry loops for one replica. */
  method FindReplica(w: World, e: Effort, caches: Permutation.Caches, seed: Word, kind: int, leafward: bool, base: nat,
                     output: array<int>, leaves: array?<int>, from: nat, position: nat, count: nat,
                         ghost under: seq<int>, root: int)
    returns (skipped: bool, item: int)
    requires Usable(w.g) && root in w.g.buckets && count > 0 && Serves(caches, w) && Apart(caches, output, leaves)
    requires from + position + count <= output.Length
    requires leafward ==> leaves != null && leaves.Length == output.Length && under == leaves[from..from + position]
    modifies if leafward then {leaves} else {}, caches.Repr
    ensures Serves(caches, w) && fresh(caches.Repr - old(caches.Repr))
    ensures leafward ==> leaves[..from + position] == old(leaves[..from + position])
    ensures var found := Search(w, e, seed, kind, leafward, base, output[from..from + position], under, root, root, 0,
                                0);
            if skipped then found == Skipped
            else found.Found? && found.item == item && (leafward ==> leaves[from + position] == found.leaf)
    decreases if leafward then 1 else 0, 1
  {
    hide Search, Usable, Serves;
    ghost var taken := output[from..from + position];
    ghost var wanted := Search(w, e, seed, kind, leafward, base, taken, under, root, root, 0, 0);
    var total, retryDescent := 0, true;
    skipped, item := false, 0;
    while retryDescent
      invariant Serves(caches, w) && Apart(caches, output, leaves) && fresh(caches.Repr - old(caches.Repr))
      invariant output[from..from + position] == taken
      invariant leafward ==> leaves[..from + position] == old(leaves[..from + position])
      invariant retryDescent ==>
                  !skipped && wanted == Search(w, e, seed, kind, leafward, base, taken, under, root, root, total, 0)
      invariant !retryDescent ==>
                  if skipped then wanted == Skipped
                  else
                    && wanted.Found? && wanted.item == item
                    && (leafward ==> leaves[from + position] == wanted.leaf)
      decreases Left(e.tries, total), if retryDescent then 1 else 0
    {
      retryDescent := false;
      var current, local, retryBucket := root, 0, true;
      ghost var started := total;
      while retryBucket
        invariant Serves(caches, w) && Apart(caches, output, leaves) && fresh(caches.Repr - old(caches.Repr))
        invariant output[from..from + position] == taken
        invariant leafward ==> leaves[..from + position] == old(leaves[..from + position])
        invariant current in w.g.buckets && (retryBucket || retryDescent ==> !skipped) && total >= started
                  && !(retryBucket && retryDescent)
        invariant retryBucket ==>
                    wanted == Search(w, e, seed, kind, leafward, base, taken, under, root, current, total, local)
        invariant retryDescent ==>
                    wanted == Search(w, e, seed, kind, leafward, base, taken, under, root, root, total, 0)
                    && started < total < e.tries
        invariant !retryBucket && !retryDescent ==>
                    if skipped then wanted == Skipped
                    else
                      && wanted.Found? && wanted.item == item
                      && (leafward ==> leaves[from + position] == wanted.leaf)
        decreases Rank(w.g, current), Left(Most(e, w.g.buckets[current]) + 1, local), if retryBucket then 1 else 0
      {
        retryBucket := false;
        var next := Look(w, e, caches, seed, kind, leafward, base, output, leaves, from, position, count, under, root,
                         current, total, local);
        match next
        case Accept(found) => item := found;
        case GiveUp => skipped := true;
        case Enter(child) => UsableRanks(w.g, current, child); current := child; retryBucket := true;
        case Stay => total := total + 1; local := local + 1; retryBucket := true;
        case Restart => total := total + 1; local := local + 1; retryDescent := true;
      }
    }
  }

  /** Chooses replicas one after another, writing them behind the ones already chosen. */
  method ChooseFirstN(w: World, e: Effort, caches: Permutation.Caches, seed: Word, kind: int, leafward: bool,
                      parentR: nat, root: int,
                      first: nat, replicas: nat, output: array<int>, leaves: array?<int>,
                      from: nat, start: nat, count: nat, ghost under: seq<int>)
    returns (position: nat)
    requires Usable(w.g) && root in w.g.buckets && Serves(caches, w) && Apart(caches, output, leaves)
    requires from + start + count <= output.Length
    requires leafward ==> leaves != null && leaves.Length == output.Length && under == leaves[from..from + start]
    modifies output, if leafward then {leaves} else {}, caches.Repr
    ensures Serves(caches, w) && fresh(caches.Repr - old(caches.Repr))
    ensures output[..from + start] == old(output[..from + start])
    ensures leafward ==> leaves[..from + start] == old(leaves[..from + start])
    ensures var (out, leavesOut) := FirstN(w, e, seed, kind, leafward, parentR, root, first, replicas, count,
                                           old(output[from..from + start]), under);
            && position == |out| && from + position <= output.Length && output[from..from + position] == out
            && (leafward ==> leaves[from..from + position] == leavesOut)
    decreases if leafward then 1 else 0, 2
  {
    hide Search, Usable, Serves;
    ghost var chosen := under;
    ghost var goal := FirstN(w, e, seed, kind, leafward, parentR, root, first, replicas, count,
                             output[from..from + start], under);
    position := start;
    var left := count;
    var replica := first;
    while replica < replicas && left > 0
      invariant Serves(caches, w) && Apart(caches, output, leaves) && fresh(caches.Repr - old(caches.Repr))
      invariant first <= replica && start <= position && position - start + left == count
      invariant output[..from + start] == old(output[..from + start])
      invariant leafward ==> leaves[..from + start] == old(leaves[..from + start])
      invariant leafward ==> chosen == leaves[from..from + position]
      invariant goal == FirstN(w, e, seed, kind, leafward, parentR, root, replica, replicas, left,
                               output[from..from + position], chosen)
      decreases Left(replicas, replica)
    {
      ghost var before := if leafward then leaves[..from + position] else [];
      var skipped, item := FindReplica(w, e, caches, seed, kind, leafward, replica + parentR, output, leaves,
                                       from, position, left, chosen, root);
      if !skipped {
        ghost var taken := output[from..from + position];
        chosen := chosen + [Search(w, e, seed, kind, leafward, replica + parentR, taken, chosen, root, root, 0,
                                   0).leaf];
        output[from + position] := item;
        position := position + 1;
        left := left - 1;
        assert output[from..from + position] == taken + [item];
      }
      replica := replica + 1;
    }
  }

  // ---------------------------------------------------------------- indep

  /** One descent for the empty position `place`. */
  method Probe(w: World, seed: Word, aim: Aim, r: nat, output: array<int>, from: nat, count: nat, leaves: array?<int>,
               place: nat, root: int)
    returns (probe: CrushSearch.Probe)
    requires Usable(w.g) && root in w.g.buckets && from + count <= output.Length
    requires aim.leafward ==> leaves != null && leaves != output && place < leaves.Length
    modifies if aim.leafward then {leaves} else {}
    ensures probe == Descend(w, seed, aim, place, r, output[from..from + count], root)
    ensures aim.leafward ==> forall i :: 0 <= i < leaves.Length && i != place ==> leaves[i] == old(leaves[i])
    ensures aim.leafward && probe.Filled? ==> leaves[place] == probe.leaf
    decreases if aim.leafward then 1 else 0, 0
  {
    hide Usable, IsOut, Shallow, LeafBelow;
    ghost var slots := output[from..from + count];
    var current := root;
    while true
      invariant current in w.g.buckets
      invariant aim.leafward ==> leaves[..] == old(leaves[..])
      invariant Descend(w, seed, aim, place, r, slots, root) == Descend(w, seed, aim, place, r, slots, current)
      decreases Rank(w.g, current)
    {
      var bucket := w.g.buckets[current];
      if bucket.items == [] { return Missed; }
      UsableFiled(w.g, current);
      var item := Straw2.Choose(w.mixer, bucket, seed, r);
      assert item == Straw(w, bucket, seed, r);
      if item >= w.g.maxDevices { return Dead; }
      if item < 0 && item !in w.g.buckets { return Dead; }
      if KindOf(w, item) != aim.kind {
        if item >= 0 { return Dead; }
        UsableRanks(w.g, current, item);
        current := item;
        continue;
      }
      var collided := Collides(output, from, count, item);
      if collided { return Missed; }
      var leaf := item;
      if aim.leafward {
        if item < 0 {
          leaf := ProbeLeaf(w, seed, aim, r, leaves, place, item);
          if leaf == NONE { return Missed; }
        } else {
          leaves[place] := item;
        }
      }
      if KindOf(w, item) == 0 && IsOut(w, item, seed) { return Missed; }
      return Filled(item, leaf);
    }
  }

  /** The recursive call that looks for one device under an item. */
  method ProbeLeaf(w: World, seed: Word, aim: Aim, r: nat, leaves: array<int>, place: nat,
                   item: int) returns (leaf: int)
    requires Usable(w.g) && item in w.g.buckets && aim.leafward && place < leaves.Length
    modifies leaves
    ensures leaf == LeafBelow(w, seed, aim, place, r, item) == leaves[place]
    ensures forall i :: 0 <= i < leaves.Length && i != place ==> leaves[i] == old(leaves[i])
    decreases 0, 4
  {
    hide Usable, Indep;
    ghost var was := leaves[..];
    assert Empty(1) == [NONE];
    ChooseIndep(w, seed, LeafAim(aim), 1, leaves, place, aim.leafTries, null, r, item);
    leaf := leaves[place];
    assert leaves[place..place + 1][0] == leaf;
    forall i | 0 <= i < leaves.Length && i != place ensures leaves[i] == was[i] {
      if i < place { assert leaves[..place][i] == was[..place][i]; }
      else { assert leaves[place + 1..][i - place - 1] == was[place + 1..][i - place - 1]; }
    }
  }

  lemma UsableRanks(g: Graph, parent: int, item: int)
    requires Usable(g) && Child(g, parent, item)
    ensures Rank(g, item) < Rank(g, parent)
  {
    RankFalls(g, parent, item);
  }

  /** The leaves agree under the positions that are filled. */
  ghost predicate Under(leaves: seq<int>, items: seq<int>, under: seq<int>) {
    && |items| == |under| == |leaves|
    && forall i :: 0 <= i < |leaves| && items[i] != NONE ==> leaves[i] == under[i]
  }

  /** The arrays hold the positions, and the leaves under those that are filled. */
  ghost predicate Holds(output: array<int>, leaves: array?<int>, leafward: bool, from: nat, count: nat, slots: Slots)
    reads output, leaves
  {
    && from + count <= output.Length && |slots.items| == |slots.leaves| == count
       && output[from..from + count] == slots.items
    && (leafward ==>
          leaves != null && leaves != output && from + count <= leaves.Length
              && Under(leaves[from..from + count], slots.items, slots.leaves))
  }

  /** Writing at an empty position disturbs no leaf under a filled one. */
  lemma UnderStays(before: seq<int>, after: seq<int>, items: seq<int>, under: seq<int>, k: nat)
    requires Under(before, items, under) && |after| == |before| && k < |before| && items[k] == NONE
    requires forall i :: 0 <= i < |before| && i != k ==> after[i] == before[i]
    ensures Under(after, items, under)
  {
  }

  lemma UnderGrows(leaves: seq<int>, items: seq<int>, under: seq<int>, k: nat, item: int)
    requires Under(leaves, items, under) && k < |leaves|
    ensures Under(leaves, items[k := item], under[k := leaves[k]])
  {
  }

  /** One pass over the positions. */
  method SweepOnce(w: World, seed: Word, aim: Aim, failure: nat, output: array<int>, from: nat, count: nat,
                   leaves: array?<int>,
                   parentR: nat, root: int, start: int, ghost slots: Slots)
    returns (left: int, ghost out: Slots)
    requires Usable(w.g) && root in w.g.buckets && Holds(output, leaves, aim.leafward, from, count, slots)
             && slots.left == start
    modifies output, if aim.leafward then {leaves} else {}
    ensures output[..from] == old(output[..from]) && output[from + count..] == old(output[from + count..])
    ensures aim.leafward ==>
              forall i :: 0 <= i < leaves.Length && !(from <= i < from + count) ==> leaves[i] == old(leaves[i])
    ensures out == Sweep(w, seed, aim, from, parentR, failure, root, 0, slots) && left == out.left
    ensures Holds(output, leaves, aim.leafward, from, count, out)
    decreases if aim.leafward then 1 else 0, 2
  {
    hide Usable, Descend;
    left, out := start, slots;
    var position := from;
    while position < from + count
      invariant from <= position <= from + count && Holds(output, leaves, aim.leafward, from, count, out)
                && left == out.left
      invariant output[..from] == old(output[..from]) && output[from + count..] == old(output[from + count..])
      invariant aim.leafward ==>
                  forall i :: 0 <= i < leaves.Length && !(from <= i < from + count) ==> leaves[i] == old(leaves[i])
      invariant Sweep(w, seed, aim, from, parentR, failure, root, 0, slots)
                == Sweep(w, seed, aim, from, parentR, failure, root, position - from, out)
    {
      if output[position] == NONE {
        assert out.items[position - from] == NONE;
        left, out := FillOne(w, seed, aim, failure, output, from, count, leaves, parentR, root, position, left, out);
      } else {
        assert out.items[position - from] != NONE;
      }
      position := position + 1;
    }
  }

  /** One try at one empty position. */
  method FillOne(w: World, seed: Word, aim: Aim, failure: nat, output: array<int>, from: nat, count: nat,
                 leaves: array?<int>,
                 parentR: nat, root: int, position: nat, start: int, ghost slots: Slots)
    returns (left: int, ghost out: Slots)
    requires Usable(w.g) && root in w.g.buckets && Holds(output, leaves, aim.leafward, from, count, slots)
             && slots.left == start
    requires from <= position < from + count && slots.items[position - from] == NONE
    modifies output, if aim.leafward then {leaves} else {}
    ensures output[..from] == old(output[..from]) && output[from + count..] == old(output[from + count..])
    ensures aim.leafward ==>
              forall i :: 0 <= i < leaves.Length && !(from <= i < from + count) ==> leaves[i] == old(leaves[i])
    ensures Holds(output, leaves, aim.leafward, from, count, out) && left == out.left
    ensures out == match Descend(w, seed, aim, position, position + parentR + aim.stride * failure, slots.items, root)
      case Filled(item, leaf) =>
        Slots(slots.items[position - from := item], slots.leaves[position - from := leaf], slots.left - 1)
      case Missed => slots
      case Dead => slots.(left := slots.left - 1)
    decreases if aim.leafward then 1 else 0, 1
  {
    hide Usable, Descend, Under;
    left, out := start, slots;
    ghost var was := if aim.leafward then leaves[from..from + count] else [];
    var probe := Probe(w, seed, aim, position + parentR + aim.stride * failure, output, from, count, leaves, position,
                       root);
    ghost var now := if aim.leafward then leaves[from..from + count] else [];
    ghost var rest := if aim.leafward then leaves[..] else [];
    if aim.leafward { UnderStays(was, now, slots.items, slots.leaves, position - from); }
    match probe
    case Filled(item, leaf) =>
      output[position] := item;
      left := left - 1;
      out := Slots(slots.items[position - from := item], slots.leaves[position - from := leaf], slots.left - 1);
      assert output[from..from + count] == out.items;
      if aim.leafward {
        assert leaves[..] == rest && leaves[from..from + count] == now && now[position - from] == leaf;
        UnderGrows(now, slots.items, slots.leaves, position - from, item);
      }
    case Missed =>
    case Dead =>
      left := left - 1;
      out := slots.(left := slots.left - 1);
  }

  /** Empties `count` positions and fills them in passes until none is left or the tries are. */
  method ChooseIndep(w: World, seed: Word, aim: Aim, count: nat, output: array<int>, from: nat, tries: nat,
                     leaves: array?<int>, parentR: nat, root: int)
    requires Usable(w.g) && root in w.g.buckets && from + count <= output.Length
    requires leaves != null ==> leaves != output && from + count <= leaves.Length
    requires aim.leafward ==> leaves != null
    modifies output, if leaves != null then {leaves} else {}
    ensures output[..from] == old(output[..from]) && output[from + count..] == old(output[from + count..])
    ensures leaves != null ==> leaves[..from] == old(leaves[..from])
    ensures Holds(output, leaves, aim.leafward, from, count,
                  Indep(w, seed, aim, from, parentR, tries, 0, root, AllEmpty(count)))
    decreases if aim.leafward then 1 else 0, 3
  {
    hide Usable, Sweep;
    Clear(output, from, count);
    if leaves != null { Clear(leaves, from, count); }
    ghost var slots := AllEmpty(count);
    assert output[from..from + count] == slots.items;
    ghost var goal := Indep(w, seed, aim, from, parentR, tries, 0, root, slots);
    var left: int := count;
    var failure := 0;
    while left > 0 && failure < tries
      invariant output[..from] == old(output[..from]) && output[from + count..] == old(output[from + count..])
      invariant leaves != null ==> leaves[..from] == old(leaves[..from])
      invariant Holds(output, leaves, aim.leafward, from, count, slots) && slots.left == left
      invariant goal == Indep(w, seed, aim, from, parentR, tries, failure, root, slots)
      decreases Left(tries, failure)
    {
      left, slots := SweepOnce(w, seed, aim, failure, output, from, count, leaves, parentR, root, left, slots);
      failure := failure + 1;
    }
  }

  method Clear(output: array<int>, from: nat, count: nat)
    requires from + count <= output.Length
    modifies output
    ensures output[..from] == old(output[..from]) && output[from + count..] == old(output[from + count..])
    ensures output[from..from + count] == Empty(count)
  {
    var position := from;
    while position < from + count
      invariant from <= position <= from + count
      invariant output[..from] == old(output[..from]) && output[from + count..] == old(output[from + count..])
      invariant forall i :: from <= i < position ==> output[i] == NONE
    {
      output[position] := NONE;
      position := position + 1;
    }
  }
}
