/** How CRUSH searches the bucket graph for the next replica, as functions. */
module CrushSearch {
  import opened Straw2
  import opened CrushGraph
  import Permutation

  /** Everything a placement reads: the graph, the override weights and the hashes. */
  datatype World = World(g: Graph, weights: seq<Word>, mixer: Mixer)

  /** How often a search retries: descents in all, descents for a leaf, then retries
      inside one bucket and retries by shuffling it. */
  datatype Effort = Effort(tries: nat, leafTries: nat, localRetries: nat, fallbackRetries: nat, varyR: nat,
                           stable: bool)

  /** The item found for a replica, with the device under it. */
  datatype Found = Found(item: int, leaf: int) | Skipped

  const NONE := 0x7fff_ffff

  /** A device that is missing from the override weights or loses its draw against its weight. */
  predicate IsOut(w: World, item: int, seed: Word) {
    if item < 0 || item >= |w.weights| then true
    else if w.weights[item] >= 0x1_0000 then false
    else if w.weights[item] == 0 then true
    else w.mixer.pair(seed, AsWord(item)) % 0x1_0000 >= w.weights[item]
  }

  function Straw(w: World, bucket: Bucket, seed: Word, r: int): (item: int)
    requires WellFormed(bucket)
    ensures item in bucket.items
  {
    bucket.items[Winner(w.mixer, bucket, seed, r)]
  }

  function Select(w: World, e: Effort, bucket: Bucket, seed: Word, r: int, local: nat): (item: int)
    requires WellFormed(bucket)
    ensures item in bucket.items
  {
    if e.fallbackRetries > 0 && local >= |bucket.items| / 2 && local > e.fallbackRetries
    then Permutation.Choice(w.mixer, bucket, seed, r)
    else Straw(w, bucket, seed, r)
  }

  function KindOf(w: World, item: int): nat
    requires item < 0 ==> item in w.g.buckets
  {
    if item < 0 then w.g.buckets[item].kind else 0
  }

  /** The replica number a leaf search starts from. */
  function LeafBase(e: Effort, r: nat, position: nat): nat {
    (if e.stable then 0 else position) + (if e.varyR == 0 then 0 else Shift(r, e.varyR - 1))
  }

  function Shift(r: nat, bits: nat): nat { if bits == 0 then r else Shift(r / 2, bits - 1) }

  /** What a leaf search may spend. */
  function LeafEffort(e: Effort): Effort { e.(tries := e.leafTries, leafTries := 0) }

  function Most(e: Effort, bucket: Bucket): nat {
    if e.localRetries > |bucket.items| + e.fallbackRetries then e.localRetries else |bucket.items| + e.fallbackRetries
  }

  function Left(limit: nat, used: nat): nat { if used < limit then limit - used else 0 }

  /** The search for one replica, standing at bucket `at` below `root` after `total`
      failures, `local` of them in this descent. `taken` and `leaves` are what earlier
      replicas chose. */
  ghost function Search(w: World, e: Effort, seed: Word, kind: int, leafward: bool, base: nat,
                        taken: seq<int>, leaves: seq<int>, root: int, at: int, total: nat, local: nat): Found
    requires Usable(w.g) && root in w.g.buckets && at in w.g.buckets
    decreases if leafward then 1 else 0, Left(e.tries, total), Rank(w.g, at), Left(Most(e, w.g.buckets[at]) + 1, local)
  {
    var bucket := w.g.buckets[at];
    if bucket.items == [] then Again(w, e, seed, kind, leafward, base, taken, leaves, root, at, total, local, false)
    else
      var r := base + total;
      var item := Select(w, e, bucket, seed, r, local);
      if item >= w.g.maxDevices || (item < 0 && item !in w.g.buckets) then Skipped
      else if KindOf(w, item) != kind then
        if item >= 0 then Skipped
        else
          RankFalls(w.g, at, item);
          Search(w, e, seed, kind, leafward, base, taken, leaves, root, item, total, local)
      else if item in taken then Again(w, e, seed, kind, leafward, base, taken, leaves, root, at, total, local, true)
      else
        var leaf := if leafward && item < 0
                    then Search(w, LeafEffort(e), seed, 0, false, LeafBase(e, r, |taken|), leaves, [], item, item, 0, 0)
                    else Found(item, item);
        if leaf.Skipped? || (KindOf(w, item) == 0 && IsOut(w, item, seed))
        then Again(w, e, seed, kind, leafward, base, taken, leaves, root, at, total, local, false)
        else Found(item, leaf.item)
  }

  /** After a failure: the same bucket again, the whole descent again, or give up. */
  ghost function Again(w: World, e: Effort, seed: Word, kind: int, leafward: bool, base: nat,
                       taken: seq<int>, leaves: seq<int>, root: int, at: int, total: nat, local: nat,
                           collided: bool): Found
    requires Usable(w.g) && root in w.g.buckets && at in w.g.buckets
    decreases if leafward then 1
        else 0, Left(e.tries, total), Rank(w.g, at), Left(Most(e, w.g.buckets[at]) + 1, local), 0
  {
    if (collided && local + 1 <= e.localRetries)
       || (e.fallbackRetries > 0 && local + 1 <= |w.g.buckets[at].items| + e.fallbackRetries)
    then Search(w, e, seed, kind, leafward, base, taken, leaves, root, at, total + 1, local + 1)
    else if total + 1 < e.tries
    then Search(w, e, seed, kind, leafward, base, taken, leaves, root, root, total + 1, 0)
    else Skipped
  }

  // ---------------------------------------------------------------- what a search finds

  /** A device in range that is not out. */
  predicate Device(w: World, seed: Word, item: int) { 0 <= item < w.g.maxDevices && !IsOut(w, item, seed) }

  /** A found item is new; a device is usable; a leaf is a usable device, new unless it is the item itself. */
  predicate Good(w: World, seed: Word, kind: int, leafward: bool, taken: seq<int>, leaves: seq<int>, found: Found) {
    found.Found? ==>
      && found.item !in taken
      && (kind == 0 ==> Device(w, seed, found.item) && found.leaf == found.item)
      && (leafward ==> Device(w, seed, found.leaf) && (kind != 0 ==> found.leaf !in leaves))
  }

  lemma {:induction false} SearchGood(w: World, e: Effort, seed: Word, kind: int, leafward: bool, base: nat,
                                      taken: seq<int>, leaves: seq<int>, root: int, at: int, total: nat, local: nat)
    requires Usable(w.g) && root in w.g.buckets && at in w.g.buckets
    ensures Good(w, seed, kind, leafward, taken, leaves,
                 Search(w, e, seed, kind, leafward, base, taken, leaves, root, at, total, local))
    decreases if leafward then 1 else 0, Left(e.tries, total), Rank(w.g, at), Left(Most(e, w.g.buckets[at]) + 1, local)
  {
    hide Again, Select;
    var bucket := w.g.buckets[at];
    if bucket.items == [] {
      AgainGood(w, e, seed, kind, leafward, base, taken, leaves, root, at, total, local, false);
    } else {
      var r := base + total;
      var item := Select(w, e, bucket, seed, r, local);
      if item >= w.g.maxDevices || (item < 0 && item !in w.g.buckets) {
      } else if KindOf(w, item) != kind {
        if item < 0 {
          RankFalls(w.g, at, item);
          SearchGood(w, e, seed, kind, leafward, base, taken, leaves, root, item, total, local);
        }
      } else {
        AgainGood(w, e, seed, kind, leafward, base, taken, leaves, root, at, total, local, true);
        AgainGood(w, e, seed, kind, leafward, base, taken, leaves, root, at, total, local, false);
        if leafward && item < 0 {
          SearchGood(w, LeafEffort(e), seed, 0, false, LeafBase(e, r, |taken|), leaves, [], item, item, 0, 0);
        }
      }
    }
  }

  lemma {:induction false} AgainGood(w: World, e: Effort, seed: Word, kind: int, leafward: bool, base: nat,
                                     taken: seq<int>, leaves: seq<int>, root: int, at: int, total: nat, local: nat,
                                         collided: bool)
    requires Usable(w.g) && root in w.g.buckets && at in w.g.buckets
    ensures Good(w, seed, kind, leafward, taken, leaves,
                 Again(w, e, seed, kind, leafward, base, taken, leaves, root, at, total, local, collided))
    decreases if leafward then 1
        else 0, Left(e.tries, total), Rank(w.g, at), Left(Most(e, w.g.buckets[at]) + 1, local), 0
  {
    if (collided && local + 1 <= e.localRetries)
       || (e.fallbackRetries > 0 && local + 1 <= |w.g.buckets[at].items| + e.fallbackRetries) {
      SearchGood(w, e, seed, kind, leafward, base, taken, leaves, root, at, total + 1, local + 1);
    } else if total + 1 < e.tries {
      SearchGood(w, e, seed, kind, leafward, base, taken, leaves, root, root, total + 1, 0);
    }
  }

  // ---------------------------------------------------------------- first-n

  /** Searches for the replicas from `replica` on, adding what is found to `taken` and `leaves`. */
  ghost function FirstN(w: World, e: Effort, seed: Word, kind: int, leafward: bool, parentR: nat, root: int,
                        replica: nat, replicas: nat, count: nat, taken: seq<int>,
                            leaves: seq<int>): (out: (seq<int>, seq<int>))
    requires Usable(w.g) && root in w.g.buckets
    decreases Left(replicas, replica)
  {
    if replica >= replicas || count == 0 then (taken, leaves)
    else
      match Search(w, e, seed, kind, leafward, replica + parentR, taken, leaves, root, root, 0, 0)
      case Skipped => FirstN(w, e, seed, kind, leafward, parentR, root, replica + 1, replicas, count, taken, leaves)
      case Found(item, leaf) =>
        FirstN(w, e, seed, kind, leafward, parentR, root, replica + 1, replicas, count - 1, taken + [item],
               leaves + [leaf])
  }

  ghost predicate Distinct(s: seq<int>) { forall i, j :: 0 <= i < j < |s| ==> s[i] != s[j] }

  ghost predicate Devices(w: World, seed: Word, s: seq<int>) { forall i :: 0 <= i < |s| ==> Device(w, seed, s[i]) }

  /** The chosen items, and the leaves under them, are pairwise distinct and usable,
      and no more than were asked for; what was already chosen stays. */
  lemma {:induction false} FirstNGood(w: World, e: Effort, seed: Word, kind: int, leafward: bool, parentR: nat,
                                      root: int,
                                      replica: nat, replicas: nat, count: nat, taken: seq<int>, leaves: seq<int>)
    requires Usable(w.g) && root in w.g.buckets && |leaves| == |taken|
    requires Distinct(taken) && (kind == 0 ==> Devices(w, seed, taken) && leaves == taken)
    requires leafward ==> Distinct(leaves) && Devices(w, seed, leaves)
    ensures var (out, under) := FirstN(w, e, seed, kind, leafward, parentR, root, replica, replicas, count, taken,
                                       leaves);
            && taken <= out && leaves <= under && |under| == |out|
            && |out| <= |taken| + count && |out| <= |taken| + Left(replicas, replica)
            && Distinct(out) && (kind == 0 ==> Devices(w, seed, out))
            && (leafward ==> Distinct(under) && Devices(w, seed, under))
    decreases Left(replicas, replica)
  {
    hide Search, Usable, Device;
    if replica < replicas && count > 0 {
      SearchGood(w, e, seed, kind, leafward, replica + parentR, taken, leaves, root, root, 0, 0);
      match Search(w, e, seed, kind, leafward, replica + parentR, taken, leaves, root, root, 0, 0)
      case Skipped => FirstNGood(w, e, seed, kind, leafward, parentR, root, replica + 1, replicas, count, taken,
                                 leaves);
      case Found(item, leaf) =>
        FirstNGood(w, e, seed, kind, leafward, parentR, root, replica + 1, replicas, count - 1, taken + [item],
                   leaves + [leaf]);
    }
  }

  // ---------------------------------------------------------------- indep

  /** One descent for a position: an item for it and the leaf under it, nothing this time, or a dead end. */
  datatype Probe = Filled(item: int, leaf: int) | Missed | Dead

  /** How an indep choice goes on: what kind it looks for, whether and how often it looks for a leaf
      below, and how far apart the replica numbers of two passes are. */
  datatype Aim = Aim(kind: int, leafward: bool, leafTries: nat, stride: nat)

  /** The positions filled so far, the leaves under them, and how many are left to fill. */
  datatype Slots = Slots(items: seq<int>, leaves: seq<int>, left: int)

  /** Looking for a leaf is looking for one device. */
  function LeafAim(aim: Aim): Aim { Aim(0, false, 0, aim.stride) }

  const ONE_EMPTY := Slots([NONE], [NONE], 1)

  /** The leaf below an item for position `place`, searched with replica number `r`. */
  ghost function LeafBelow(w: World, seed: Word, aim: Aim, place: nat, r: nat, item: int): (leaf: int)
    requires Usable(w.g) && item in w.g.buckets && aim.leafward
    decreases 1, 0, 0
  {
    Indep(w, seed, LeafAim(aim), place, r, aim.leafTries, 0, item, ONE_EMPTY).items[0]
  }

  ghost function Descend(w: World, seed: Word, aim: Aim, place: nat, r: nat, items: seq<int>, at: int): Probe
    requires Usable(w.g) && at in w.g.buckets
    decreases if aim.leafward then 1 else 0, 1, Rank(w.g, at)
  {
    var bucket := w.g.buckets[at];
    if bucket.items == [] then Missed
    else
      var item := Straw(w, bucket, seed, r);
      if item >= w.g.maxDevices || (item < 0 && item !in w.g.buckets) then Dead
      else if KindOf(w, item) != aim.kind then
        if item >= 0 then Dead else RankFalls(w.g, at, item); Descend(w, seed, aim, place, r, items, item)
      else if item in items then Missed
      else
        var leaf := if aim.leafward && item < 0 then LeafBelow(w, seed, aim, place, r, item) else item;
        if (aim.leafward && item < 0 && leaf == NONE) || (KindOf(w, item) == 0 && IsOut(w, item, seed)) then Missed
        else Filled(item, leaf)
  }

  /** One pass over the positions that are still empty, the first of which is position `from` of the output. */
  ghost function Sweep(w: World, seed: Word, aim: Aim, from: nat, parentR: nat, failure: nat, root: int,
                       position: nat, slots: Slots): (out: Slots)
    requires Usable(w.g) && root in w.g.buckets && |slots.leaves| == |slots.items|
    ensures |out.items| == |slots.items| && |out.leaves| == |out.items|
    decreases if aim.leafward then 1 else 0, 2, Left(|slots.items|, position)
  {
    if position >= |slots.items| then slots
    else if slots.items[position] != NONE then Sweep(w, seed, aim, from, parentR, failure, root, position + 1, slots)
    else
      var place := from + position;
      var next := match Descend(w, seed, aim, place, place + parentR + aim.stride * failure, slots.items, root)
        case Filled(item, leaf) =>
          Slots(slots.items[position := item], slots.leaves[position := leaf], slots.left - 1)
        case Missed => slots
        case Dead => slots.(left := slots.left - 1);
      Sweep(w, seed, aim, from, parentR, failure, root, position + 1, next)
  }

  ghost function Indep(w: World, seed: Word, aim: Aim, from: nat, parentR: nat, tries: nat, failure: nat, root: int,
                       slots: Slots): (out: Slots)
    requires Usable(w.g) && root in w.g.buckets && |slots.leaves| == |slots.items|
    ensures |out.items| == |slots.items| && |out.leaves| == |out.items|
    decreases if aim.leafward then 1 else 0, 3, Left(tries, failure)
  {
    if slots.left <= 0 || failure >= tries then slots
    else Indep(w, seed, aim, from, parentR, tries, failure + 1, root,
               Sweep(w, seed, aim, from, parentR, failure, root, 0, slots))
  }

  function Empty(count: nat): (slots: seq<int>)
    ensures |slots| == count && forall i :: 0 <= i < count ==> slots[i] == NONE
  {
    seq(count, _ => NONE)
  }

  function AllEmpty(count: nat): (slots: Slots) { Slots(Empty(count), Empty(count), count) }

  /** Two positions hold the same item only when both are empty; filled ones hold usable devices. */
  ghost predicate SlotsGood(w: World, seed: Word, kind: int, slots: seq<int>) {
    && (forall i, j :: 0 <= i < j < |slots| ==> slots[i] != slots[j] || slots[i] == NONE)
    && (kind == 0 ==> forall i :: 0 <= i < |slots| ==> slots[i] == NONE || Device(w, seed, slots[i]))
  }

  /** And where leaves are looked for, every filled position has a usable device under it. */
  ghost predicate LeavesGood(w: World, seed: Word, leafward: bool, slots: Slots) {
    && |slots.leaves| == |slots.items|
    && (leafward ==> forall i :: 0 <= i < |slots.items| && slots.items[i] != NONE ==> Device(w, seed, slots.leaves[i]))
  }

  ghost predicate AllGood(w: World, seed: Word, aim: Aim, slots: Slots) {
    SlotsGood(w, seed, aim.kind, slots.items) && LeavesGood(w, seed, aim.leafward, slots)
  }

  /** Filled positions never change, nor do the leaves under them. */
  ghost predicate Keeps(before: Slots, after: Slots) {
    && |after.items| == |before.items| && |after.leaves| == |before.leaves| == |before.items|
    && forall i :: 0 <= i < |before.items| && before.items[i] != NONE ==>
         after.items[i] == before.items[i] && after.leaves[i] == before.leaves[i]
  }

  lemma LeafBelowGood(w: World, seed: Word, aim: Aim, place: nat, r: nat, item: int)
    requires Usable(w.g) && item in w.g.buckets && aim.leafward
    ensures var leaf := LeafBelow(w, seed, aim, place, r, item); leaf == NONE || Device(w, seed, leaf)
    decreases 1, 0, 0
  {
    hide Indep, Usable, Device;
    IndepGood(w, seed, LeafAim(aim), place, r, aim.leafTries, 0, item, ONE_EMPTY);
  }

  lemma {:induction false} DescendGood(w: World, seed: Word, aim: Aim, place: nat, r: nat, items: seq<int>, at: int)
    requires Usable(w.g) && at in w.g.buckets
    ensures var probe := Descend(w, seed, aim, place, r, items, at);
            probe.Filled? ==>
              && probe.item !in items && probe.item < w.g.maxDevices && (aim.kind == 0 ==> Device(w, seed, probe.item))
              && (aim.leafward ==> Device(w, seed, probe.leaf))
    decreases if aim.leafward then 1 else 0, 1, Rank(w.g, at)
  {
    hide LeafBelow;
    var bucket := w.g.buckets[at];
    if bucket.items != [] {
      var item := Straw(w, bucket, seed, r);
      if item < 0 && item in w.g.buckets {
        if KindOf(w, item) != aim.kind {
          RankFalls(w.g, at, item);
          DescendGood(w, seed, aim, place, r, items, item);
        } else if aim.leafward {
          LeafBelowGood(w, seed, aim, place, r, item);
        }
      }
    }
  }

  lemma FilledGood(w: World, seed: Word, aim: Aim, slots: Slots, position: nat, item: int, leaf: int)
    requires AllGood(w, seed, aim, slots) && position < |slots.items| && slots.items[position] == NONE
    requires item !in slots.items && (aim.kind == 0 ==> Device(w, seed, item))
             && (aim.leafward ==> Device(w, seed, leaf))
    ensures var next := Slots(slots.items[position := item], slots.leaves[position := leaf], slots.left - 1);
            AllGood(w, seed, aim, next) && Keeps(slots, next)
  {
  }

  lemma KeepsOn(a: Slots, b: Slots, c: Slots)
    requires Keeps(a, b) && Keeps(b, c)
    ensures Keeps(a, c)
  {
  }

  lemma {:induction false} SweepGood(w: World, seed: Word, aim: Aim, from: nat, parentR: nat, failure: nat, root: int,
                                     position: nat, slots: Slots)
    requires Usable(w.g) && root in w.g.buckets && AllGood(w, seed, aim, slots)
    ensures var out := Sweep(w, seed, aim, from, parentR, failure, root, position, slots);
            AllGood(w, seed, aim, out) && Keeps(slots, out)
    decreases if aim.leafward then 1 else 0, 2, Left(|slots.items|, position)
  {
    hide Descend, Usable, Device, SlotsGood;
    if position < |slots.items| {
      if slots.items[position] != NONE {
        SweepGood(w, seed, aim, from, parentR, failure, root, position + 1, slots);
      } else {
        var place := from + position;
        var r := place + parentR + aim.stride * failure;
        DescendGood(w, seed, aim, place, r, slots.items, root);
        match Descend(w, seed, aim, place, r, slots.items, root)
        case Filled(item, leaf) =>
          FilledGood(w, seed, aim, slots, position, item, leaf);
          var next := Slots(slots.items[position := item], slots.leaves[position := leaf], slots.left - 1);
          SweepGood(w, seed, aim, from, parentR, failure, root, position + 1, next);
          KeepsOn(slots, next, Sweep(w, seed, aim, from, parentR, failure, root, position + 1, next));
        case Missed => SweepGood(w, seed, aim, from, parentR, failure, root, position + 1, slots);
        case Dead => SweepGood(w, seed, aim, from, parentR, failure, root, position + 1,
                               slots.(left := slots.left - 1));
      }
    }
  }

  /** Positions are filled with distinct usable devices or left empty, and once filled
      they survive every later pass. */
  lemma {:induction false} IndepGood(w: World, seed: Word, aim: Aim, from: nat, parentR: nat, tries: nat, failure: nat,
                                     root: int,
                                     slots: Slots)
    requires Usable(w.g) && root in w.g.buckets && AllGood(w, seed, aim, slots)
    ensures var out := Indep(w, seed, aim, from, parentR, tries, failure, root, slots);
            AllGood(w, seed, aim, out) && Keeps(slots, out)
    decreases if aim.leafward then 1 else 0, 3, Left(tries, failure)
  {
    hide Sweep, Usable, SlotsGood;
    if slots.left > 0 && failure < tries {
      SweepGood(w, seed, aim, from, parentR, failure, root, 0, slots);
      var swept := Sweep(w, seed, aim, from, parentR, failure, root, 0, slots);
      IndepGood(w, seed, aim, from, parentR, tries, failure + 1, root, swept);
      KeepsOn(slots, swept, Indep(w, seed, aim, from, parentR, tries, failure + 1, root, swept));
    }
  }
}
