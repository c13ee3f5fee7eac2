/** The copy-on-write update of a map: snapshots share every table that does not change. */
module CopyOnWrite {
  import opened Common
  import opened Straw2
  import opened P = Placement
  import opened Incremental

  // Every table and vector of a map is an object of its own, so that snapshots can share it.

  class PoolTable {
    var pools: map<int, PoolInfo>
    var names: map<string, int>
    constructor (pools: map<int, PoolInfo>, names: map<string, int>)
      ensures this.pools == pools && this.names == names
    {
      this.pools, this.names := pools, names;
    }
  }

  class StateVector {
    var states: seq<Flags>
    constructor (states: seq<Flags>) ensures this.states == states { this.states := states; }
  }

  class WeightVector {
    var weights: seq<Word>
    constructor (weights: seq<Word>) ensures this.weights == weights { this.weights := weights; }
  }

  class AffinityVector {
    var affinity: seq<Word>
    constructor (affinity: seq<Word>) ensures this.affinity == affinity { this.affinity := affinity; }
  }

  class AddressVector {
    var addresses: seq<seq<int>>
    constructor (addresses: seq<seq<int>>) ensures this.addresses == addresses { this.addresses := addresses; }
  }

  class PgTempTable {
    var pgTemp: map<Pg, seq<int>>
    constructor (pgTemp: map<Pg, seq<int>>) ensures this.pgTemp == pgTemp { this.pgTemp := pgTemp; }
  }

  class PrimaryTempTable {
    var primaryTemp: map<Pg, int>
    constructor (primaryTemp: map<Pg, int>) ensures this.primaryTemp == primaryTemp { this.primaryTemp := primaryTemp; }
  }

  class UpmapTable {
    var upmap: map<Pg, seq<int>>
    constructor (upmap: map<Pg, seq<int>>) ensures this.upmap == upmap { this.upmap := upmap; }
  }

  class UpmapItemTable {
    var upmapItems: map<Pg, seq<Remap>>
    constructor (upmapItems: map<Pg, seq<Remap>>)
      ensures this.upmapItems == upmapItems
    {
      this.upmapItems := upmapItems;
    }
  }

  class UpmapPrimaryTable {
    var upmapPrimary: map<Pg, int>
    constructor (upmapPrimary: map<Pg, int>)
      ensures this.upmapPrimary == upmapPrimary
    {
      this.upmapPrimary := upmapPrimary;
    }
  }

  class ProfileTable {
    var profiles: map<string, map<string, string>>
    constructor (profiles: map<string, map<string, string>>)
      ensures this.profiles == profiles
    {
      this.profiles := profiles;
    }
  }

  // ---------------------------------------------------------------- pools

  /** Adds or replaces pools, in any order. */
  method AddPools(t: PoolTable, more: map<int, PoolInfo>)
    modifies (if more == map[] then {} else {t})`pools
    ensures t.pools == WithPools(old(t.pools), more)
  {
    ghost var before := t.pools;
    var left := more.Keys;
    assert t.pools == WithPools(before, map[]);
    while left != {}
      invariant left <= more.Keys && (more == map[] ==> left == {})
      invariant t.pools == WithPools(before, map id | id in more && id !in left :: more[id])
      decreases |left|
    {
      var id := PickMember(left);
      var pool := more[id];
      if id in t.pools { pool := pool.(name := t.pools[id].name); }
      t.pools := t.pools[id := pool];
      left := left - {id};
    }
    assert (map id | id in more && id !in left :: more[id]) == more;
  }

  /** One rename, as the loop makes it. */
  lemma RenameKeeps(pools: map<int, PoolInfo>, names: map<string, int>, id: int, name: string)
    requires Linked(pools, names) && id in pools && (name in names ==> names[name] == id)
    ensures Linked(pools[id := pools[id].(name := name)], (names - {pools[id].name})[name := id])
  {
    var after, found := pools[id := pools[id].(name := name)], (names - {pools[id].name})[name := id];
    forall other | other in after && after[other].name != ""
      ensures after[other].name in found && found[after[other].name] == other
    {
      if other != id { assert pools[other].name in names; }
    }
    forall n | n in found ensures found[n] in after && after[found[n]].name == n {
      if n != name { assert n in names; }
    }
  }

  /** Renames pools, in any order. */
  method RenamePools(t: PoolTable, renames: map<int, string>) returns (ok: bool)
    requires Linked(t.pools, t.names)
    modifies (if renames == map[] then {} else {t})`pools, (if renames == map[] then {} else {t})`names
    ensures ok ==> renames.Keys <= old(t.pools).Keys
    ensures ok ==> t.pools == Renamed(old(t.pools), renames) && Linked(t.pools, t.names)
    ensures renames.Keys <= old(t.pools).Keys && NoClash(old(t.names), renames) ==> ok
    ensures renames == map[] ==> ok
  {
    hide Linked;
    ghost var before, found := t.pools, t.names;
    var left := renames.Keys;
    assert t.pools == Renamed(before, map[]);
    while left != {}
      invariant left <= renames.Keys && (renames == map[] ==> left == {})
      invariant t.pools == Renamed(before, map id | id in renames && id !in left :: renames[id])
      invariant Linked(t.pools, t.names) && renames.Keys - left <= before.Keys
      invariant NoClash(found, renames) ==>
                  forall id :: id in left && renames[id] in t.names ==> t.names[renames[id]] == id
      decreases |left|
    {
      var id := PickMember(left);
      var name := renames[id];
      if id !in t.pools { return false; }
      if name in t.names && t.names[name] != id { return false; }
      RenameKeeps(t.pools, t.names, id, name);
      t.names := (t.names - {t.pools[id].name})[name := id];
      t.pools := t.pools[id := t.pools[id].(name := name)];
      left := left - {id};
    }
    assert (map id | id in renames && id !in left :: renames[id]) == renames;
    return true;
  }

  lemma RemoveKeeps(pools: map<int, PoolInfo>, names: map<string, int>, id: int)
    requires Linked(pools, names) && id in pools
    ensures Linked(pools - {id}, names - {pools[id].name})
  {
    var after, found := pools - {id}, names - {pools[id].name};
    forall other | other in after && after[other].name != ""
      ensures after[other].name in found && found[after[other].name] == other
    {
      assert pools[other].name in names;
    }
    forall n | n in found ensures found[n] in after && after[found[n]].name == n {
      assert n in names;
    }
  }

  method RemovePools(t: PoolTable, gone: seq<int>)
    requires Linked(t.pools, t.names)
    modifies (if gone == [] then {} else {t})`pools, (if gone == [] then {} else {t})`names
    ensures t.pools == Without(old(t.pools), gone) && Linked(t.pools, t.names)
  {
    hide Linked;
    ghost var before := t.pools;
    var i := 0;
    assert t.pools == Without(before, gone[..0]);
    while i < |gone|
      invariant 0 <= i <= |gone| && t.pools == Without(before, gone[..i]) && Linked(t.pools, t.names)
    {
      var id := gone[i];
      assert gone[..i + 1] == gone[..i] + [id];
      if id in t.pools {
        RemoveKeeps(t.pools, t.names, id);
        t.names := t.names - {t.pools[id].name};
        t.pools := t.pools - {id};
      }
      i := i + 1;
    }
    assert gone[..i] == gone;
  }

  method CheckNamed(pools: map<int, PoolInfo>) returns (ok: bool)
    ensures ok == AllNamed(pools)
  {
    var left := pools.Keys;
    while left != {}
      invariant left <= pools.Keys && forall id :: id in pools && id !in left ==> pools[id].name != ""
      decreases |left|
    {
      var id := PickMember(left);
      if pools[id].name == "" { return false; }
      left := left - {id};
    }
    return true;
  }

  // ---------------------------------------------------------------- OSD vectors

  method ResizeValues<T>(values: seq<T>, size: nat, filler: T) returns (r: seq<T>)
    ensures r == Resized(values, size, filler)
  {
    if |values| > size { return values[..size]; }
    return values + seq(size - |values|, _ => filler);
  }

  /** Affinities are padded one by one, and only when there are any. */
  method ResizeAffinity(affinity: AffinityVector, size: nat)
    modifies affinity`affinity
    ensures affinity.affinity == if old(affinity.affinity) == [] then []
            else Resized(old(affinity.affinity), size, FULL_AFFINITY)
  {
    if |affinity.affinity| != 0 {
      while |affinity.affinity| < size
        invariant old(affinity.affinity) <= affinity.affinity
                  && (|affinity.affinity| <= size || affinity.affinity == old(affinity.affinity))
        invariant forall i :: |old(affinity.affinity)| <= i < |affinity.affinity| ==>
                    affinity.affinity[i] == FULL_AFFINITY
        decreases size - |affinity.affinity|
      {
        affinity.affinity := affinity.affinity + [FULL_AFFINITY];
      }
      affinity.affinity := affinity.affinity[..size];
      assert affinity.affinity == Resized(old(affinity.affinity), size, FULL_AFFINITY);
    }
  }

  method Resize(states: StateVector, weights: WeightVector, affinity: AffinityVector, addresses: AddressVector,
                size: nat)
    modifies states`states, weights`weights, affinity`affinity, addresses`addresses
    ensures states.states == Resized(old(states.states), size, 0)
            && weights.weights == Resized(old(weights.weights), size, 0)
    ensures affinity.affinity == if old(affinity.affinity) == [] then []
            else Resized(old(affinity.affinity), size, FULL_AFFINITY)
    ensures addresses.addresses == Resized(old(addresses.addresses), size, [])
  {
    hide Resized;
    states.states := ResizeValues(states.states, size, 0);
    weights.weights := ResizeValues(weights.weights, size, 0);
    ResizeAffinity(affinity, size);
    addresses.addresses := ResizeValues(addresses.addresses, size, []);
  }

  /** The entries of the keys already taken from `left` are changed, the others are not. */
  ghost predicate Partly<T(!new), V(!new)>(before: seq<T>, after: seq<T>, changes: map<int, V>, left: set<int>,
                                           change: (T, V) -> T) {
    && |after| == |before|
    && forall i :: 0 <= i < |before| ==>
        after[i] == if i in changes && i !in left then change(before[i], changes[i]) else before[i]
  }

  lemma PartlyOne<T(!new), V(!new)>(before: seq<T>, after: seq<T>, changes: map<int, V>, left: set<int>,
                                    change: (T, V) -> T, k: int)
    requires Partly(before, after, changes, left, change) && k in left && k in changes && 0 <= k < |before|
    ensures |after| == |before| && after[k] == before[k]
    ensures Partly(before, after[k := change(before[k], changes[k])], changes, left - {k}, change)
  {
  }

  lemma PartlyNone<T(!new), V(!new)>(before: seq<T>, changes: map<int, V>, change: (T, V) -> T)
    ensures Partly(before, before, changes, changes.Keys, change)
  {
  }

  function Replace(was: Word, value: Word): Word { value }

  function ReplaceAddress(was: seq<int>, value: seq<int>): seq<int> { value }

  function BootedBy(state: Flags, address: seq<int>): Flags { Booted(state) }

  method ApplyWeights(weights: WeightVector, states: StateVector, changes: map<int, Word>) returns (ok: bool)
    requires |weights.weights| == |states.states|
    modifies (if changes == map[] then {} else {weights})`weights, (if changes == map[] then {} else {states})`states
    ensures ok <==> InRange(changes, |old(states.states)|)
    ensures ok ==> Partly(old(weights.weights), weights.weights, changes, {}, Replace)
    ensures ok ==> Partly(old(states.states), states.states, changes, {}, Weighed)
  {
    hide Weighed, Partly;
    ghost var w, s := weights.weights, states.states;
    var left := changes.Keys;
    PartlyNone(w, changes, Replace);
    PartlyNone(s, changes, Weighed);
    while left != {}
      invariant left <= changes.Keys && (changes == map[] ==> left == {})
      invariant forall osd :: osd in changes && osd !in left ==> 0 <= osd < |s|
      invariant Partly(w, weights.weights, changes, left, Replace) && Partly(s, states.states, changes, left, Weighed)
      invariant |weights.weights| == |w| && |states.states| == |s|
      decreases |left|
    {
      var osd := PickMember(left);
      if osd < 0 || osd >= |states.states| { return false; }
      PartlyOne(w, weights.weights, changes, left, Replace, osd);
      PartlyOne(s, states.states, changes, left, Weighed, osd);
      weights.weights := weights.weights[osd := changes[osd]];
      states.states := states.states[osd := Weighed(states.states[osd], changes[osd])];
      left := left - {osd};
    }
    return true;
  }

  method ApplyAffinities(affinity: AffinityVector, changes: map<int, Word>, size: nat) returns (ok: bool)
    requires affinity.affinity == [] || |affinity.affinity| == size
    modifies (if changes == map[] then {} else {affinity})`affinity
    ensures ok <==> InRange(changes, size)
    ensures ok ==>
              Partly(if changes != map[] && old(affinity.affinity) == [] then FullAffinity(size)
                     else old(affinity.affinity),
                          affinity.affinity, changes, {}, Replace)
  {
    hide Partly;
    if changes != map[] && |affinity.affinity| == 0 { affinity.affinity := FullAffinity(size); }
    ghost var a := affinity.affinity;
    var left := changes.Keys;
    PartlyNone(a, changes, Replace);
    while left != {}
      invariant left <= changes.Keys && (changes == map[] ==> left == {})
      invariant forall osd :: osd in changes && osd !in left ==> 0 <= osd < size
      invariant Partly(a, affinity.affinity, changes, left, Replace) && |affinity.affinity| == |a|
      decreases |left|
    {
      var osd := PickMember(left);
      if osd < 0 || osd >= size { return false; }
      PartlyOne(a, affinity.affinity, changes, left, Replace, osd);
      affinity.affinity := affinity.affinity[osd := changes[osd]];
      left := left - {osd};
    }
    return true;
  }

  /** The affinities and addresses of OSDs whose toggle destroys them are reset. */
  ghost predicate Reset<T(!new)>(before: seq<T>, after: seq<T>, states: seq<Flags>, changes: map<int, Flags>,
                                 left: set<int>, none: T) {
    && |after| == |before|
    && forall i :: 0 <= i < |before| ==>
         after[i] == if i < |states| && i in changes && i !in left && Destroys(states[i], changes[i]) then none
             else before[i]
  }

  lemma ResetOne<T(!new)>(before: seq<T>, after: seq<T>, states: seq<Flags>, changes: map<int, Flags>, left: set<int>,
                          none: T, k: int)
    requires Reset(before, after, states, changes, left, none) && k in left && k in changes && 0 <= k < |states|
    ensures |after| == |before|
    ensures Destroys(states[k], changes[k]) && k < |before| ==>
              Reset(before, after[k := none], states, changes, left - {k}, none)
    ensures !Destroys(states[k], changes[k]) || k >= |before| ==>
              Reset(before, after, states, changes, left - {k}, none)
  {
    hide Destroys;
  }

  lemma ResetNone<T(!new)>(before: seq<T>, states: seq<Flags>, changes: map<int, Flags>, none: T)
    ensures Reset(before, before, states, changes, changes.Keys, none)
  {
  }

  method ApplyStates(states: StateVector, affinity: AffinityVector, addresses: AddressVector, changes: map<int, Flags>)
    returns (ok: bool)
    requires |addresses.addresses| == |states.states|
    modifies (if changes == map[] then {} else {states})`states, (if changes == map[] then {} else {affinity})`affinity,
             (if changes == map[] then {} else {addresses})`addresses
    ensures ok <==> InRange(changes, |old(states.states)|)
    ensures ok ==> Partly(old(states.states), states.states, changes, {}, Toggled)
    ensures ok ==> Reset(old(affinity.affinity), affinity.affinity, old(states.states), changes, {}, FULL_AFFINITY)
    ensures ok ==> Reset(old(addresses.addresses), addresses.addresses, old(states.states), changes, {}, [])
  {
    hide Destroys, Toggle, Partly, Reset;
    ghost var s, a, d := states.states, affinity.affinity, addresses.addresses;
    var left := changes.Keys;
    PartlyNone(s, changes, Toggled);
    ResetNone(a, s, changes, FULL_AFFINITY);
    ResetNone(d, s, changes, []);
    while left != {}
      invariant left <= changes.Keys && (changes == map[] ==> left == {})
      invariant forall osd :: osd in changes && osd !in left ==> 0 <= osd < |s|
      invariant Partly(s, states.states, changes, left, Toggled)
                && |states.states| == |s| == |d| == |addresses.addresses|
      invariant |affinity.affinity| == |a|
      invariant Reset(a, affinity.affinity, s, changes, left, FULL_AFFINITY)
                && Reset(d, addresses.addresses, s, changes, left, [])
      decreases |left|
    {
      var osd := PickMember(left);
      if osd < 0 || osd >= |states.states| { return false; }
      PartlyOne(s, states.states, changes, left, Toggled, osd);
      ResetOne(a, affinity.affinity, s, changes, left, FULL_AFFINITY, osd);
      ResetOne(d, addresses.addresses, s, changes, left, [], osd);
      if Destroys(states.states[osd], changes[osd]) {
        states.states := states.states[osd := 0];
        if osd < |affinity.affinity| { affinity.affinity := affinity.affinity[osd := FULL_AFFINITY]; }
        addresses.addresses := addresses.addresses[osd := []];
      } else {
        states.states := states.states[osd := states.states[osd] ^ Toggle(changes[osd])];
      }
      left := left - {osd};
    }
    return true;
  }

  method ApplyUps(states: StateVector, addresses: AddressVector, changes: map<int, seq<int>>) returns (ok: bool)
    requires |addresses.addresses| == |states.states|
    modifies (if changes == map[] then {} else {states})`states,
             (if changes == map[] then {} else {addresses})`addresses
    ensures ok <==> InRange(changes, |old(states.states)|)
    ensures ok ==> Partly(old(states.states), states.states, changes, {}, BootedBy)
    ensures ok ==> Partly(old(addresses.addresses), addresses.addresses, changes, {}, ReplaceAddress)
  {
    hide Booted, Partly;
    ghost var s, d := states.states, addresses.addresses;
    var left := changes.Keys;
    PartlyNone(s, changes, BootedBy);
    PartlyNone(d, changes, ReplaceAddress);
    while left != {}
      invariant left <= changes.Keys && (changes == map[] ==> left == {})
      invariant forall osd :: osd in changes && osd !in left ==> 0 <= osd < |s|
      invariant |states.states| == |s| == |d| == |addresses.addresses|
      invariant Partly(s, states.states, changes, left, BootedBy)
                && Partly(d, addresses.addresses, changes, left, ReplaceAddress)
      decreases |left|
    {
      var osd := PickMember(left);
      if osd < 0 || osd >= |states.states| { return false; }
      PartlyOne(s, states.states, changes, left, BootedBy, osd);
      PartlyOne(d, addresses.addresses, changes, left, ReplaceAddress, osd);
      states.states := states.states[osd := Booted(states.states[osd])];
      addresses.addresses := addresses.addresses[osd := changes[osd]];
      left := left - {osd};
    }
    return true;
  }

  predicate Resizes(c: Change) { c.newMaxOsd >= 0 }
  predicate WritesPools(c: Change) { c.newPools != map[] || c.newPoolNames != map[] || c.oldPools != [] }
  predicate WritesStates(c: Change) { Resizes(c) || c.newWeight != map[] || c.newState != map[] || c.newUp != map[] }
  predicate WritesWeights(c: Change) { Resizes(c) || c.newWeight != map[] }
  predicate WritesAffinity(c: Change) { Resizes(c) || c.newAffinity != map[] || c.newState != map[] }
  predicate WritesAddresses(c: Change) { Resizes(c) || c.newUp != map[] || c.newState != map[] }

  /** The vectors after the four loops are the vectors of the next map. */
  lemma VectorsMeet(c: Change, size: nat, s0: seq<Flags>, w0: seq<Word>, a0: seq<Word>, d0: seq<seq<int>>,
                    s1: seq<Flags>, w1: seq<Word>, a1: seq<Word>, s2: seq<Flags>, a2: seq<Word>, d2: seq<seq<int>>,
                        s3: seq<Flags>, d3: seq<seq<int>>)
    requires |Fitted(s0, c, 0)| == size
    requires Partly(Fitted(w0, c, 0), w1, c.newWeight, {}, Replace)
             && Partly(Fitted(s0, c, 0), s1, c.newWeight, {}, Weighed)
    requires Partly(FittedAffinity(a0, c, size), a1, c.newAffinity, {}, Replace)
    requires Partly(s1, s2, c.newState, {}, Toggled) && Reset(a1, a2, s1, c.newState, {}, FULL_AFFINITY)
    requires Reset(Fitted(d0, c, []), d2, s1, c.newState, {}, [])
    requires Partly(s2, s3, c.newUp, {}, BootedBy) && Partly(d2, d3, c.newUp, {}, ReplaceAddress)
    ensures s3 == NextStates(s0, c) && w1 == NextWeights(w0, c)
    ensures a2 == NextAffinity(a0, s0, c, size) && d3 == NextAddresses(d0, s0, c)
  {
    hide Weighed, Toggled, Booted, Destroys, Fitted, FittedAffinity;
    forall i | 0 <= i < size ensures s1[i] == StateIn(Fitted(s0, c, 0)[i], c, i) { }
  }

  /** Sizes the vectors, then sets weights and affinities. */
  method ApplySettings(states: StateVector, weights: WeightVector, affinity: AffinityVector, addresses: AddressVector,
                       c: Change, size: nat) returns (ok: bool)
    requires |states.states| == |weights.weights| == |addresses.addresses|
             && (affinity.affinity == [] || |affinity.affinity| == |states.states|)
    requires size == if Resizes(c) then c.newMaxOsd else |states.states|
    modifies (if WritesStates(c) then {states} else {})`states, (if WritesWeights(c) then {weights} else {})`weights,
             (if WritesAffinity(c) then {affinity} else {})`affinity,
             (if WritesAddresses(c) then {addresses} else {})`addresses
    ensures ok <==> InRange(c.newWeight, size) && InRange(c.newAffinity, size)
    ensures ok ==> Partly(Fitted(old(weights.weights), c, 0), weights.weights, c.newWeight, {}, Replace)
    ensures ok ==>
              Partly(Fitted(old(states.states), c, 0), states.states, c.newWeight, {}, Weighed)
              && |states.states| == size
    ensures ok ==>
              Partly(FittedAffinity(old(affinity.affinity), c, size), affinity.affinity, c.newAffinity, {}, Replace)
    ensures ok ==> addresses.addresses == Fitted(old(addresses.addresses), c, []) && |addresses.addresses| == size
  {
    hide Partly, Resized, InRange, Fitted, FittedAffinity;
    FitAll(c, size, states.states, weights.weights, affinity.affinity, addresses.addresses);
    if c.newMaxOsd >= 0 { Resize(states, weights, affinity, addresses, c.newMaxOsd); }
    ghost var sized := states.states;
    ok := ApplyWeights(weights, states, c.newWeight);
    if !ok { return; }
    PartlySize(sized, states.states, c.newWeight, Weighed);
    ok := ApplyAffinities(affinity, c.newAffinity, size);
  }

  method ApplyOsds(states: StateVector, weights: WeightVector, affinity: AffinityVector, addresses: AddressVector,
                   c: Change, size: nat) returns (ok: bool)
    requires |states.states| == |weights.weights| == |addresses.addresses|
             && (affinity.affinity == [] || |affinity.affinity| == |states.states|)
    requires size == if Resizes(c) then c.newMaxOsd else |states.states|
    modifies (if WritesStates(c) then {states} else {})`states, (if WritesWeights(c) then {weights} else {})`weights,
             (if WritesAffinity(c) then {affinity} else {})`affinity,
             (if WritesAddresses(c) then {addresses} else {})`addresses
    ensures ok <==> OsdsKnown(c, size)
    ensures ok ==>
              states.states == NextStates(old(states.states), c)
              && weights.weights == NextWeights(old(weights.weights), c)
    ensures ok ==> affinity.affinity == NextAffinity(old(affinity.affinity), old(states.states), c, size)
    ensures ok ==> addresses.addresses == NextAddresses(old(addresses.addresses), old(states.states), c)
  {
    hide Partly, Reset, Resized, InRange, Fitted, FittedAffinity, NextStates, NextWeights, NextAffinity, NextAddresses;
    ghost var s0, w0, a0, d0 := states.states, weights.weights, affinity.affinity, addresses.addresses;
    FitAll(c, size, s0, w0, a0, d0);
    ok := ApplySettings(states, weights, affinity, addresses, c, size);
    if !ok { return; }
    ghost var s1, a1, d1 := states.states, affinity.affinity, addresses.addresses;
    ok := ApplyStates(states, affinity, addresses, c.newState);
    if !ok { return; }
    ghost var s2, d2 := states.states, addresses.addresses;
    PartlySize(s1, s2, c.newState, Toggled);
    ResetSize(d1, d2, s1, c.newState, []);
    ok := ApplyUps(states, addresses, c.newUp);
    if !ok { return; }
    VectorsMeet(c, size, s0, w0, a0, d0, s1, weights.weights, a1, s2, affinity.affinity, d2, states.states,
                addresses.addresses);
  }

  lemma FitAll(c: Change, size: nat, s: seq<Flags>, w: seq<Word>, a: seq<Word>, d: seq<seq<int>>)
    requires |s| == |w| == |d| && (a == [] || |a| == |s|)
    requires size == if Resizes(c) then c.newMaxOsd else |s|
    ensures Fitted(s, c, 0) == (if Resizes(c) then Resized(s, c.newMaxOsd, 0) else s) && |Fitted(s, c, 0)| == size
    ensures Fitted(w, c, 0) == (if Resizes(c) then Resized(w, c.newMaxOsd, 0) else w) && |Fitted(w, c, 0)| == size
    ensures Fitted(d, c, []) == (if Resizes(c) then Resized(d, c.newMaxOsd, []) else d) && |Fitted(d, c, [])| == size
    ensures var sized := if a == [] then [] else if Resizes(c) then Resized(a, c.newMaxOsd, FULL_AFFINITY) else a;
            && (sized == [] || |sized| == size)
            && FittedAffinity(a, c, size) == if c.newAffinity != map[] && sized == [] then FullAffinity(size) else sized
  {
  }

  lemma PartlySize<T(!new), V(!new)>(before: seq<T>, after: seq<T>, changes: map<int, V>, change: (T, V) -> T)
    requires Partly(before, after, changes, {}, change)
    ensures |after| == |before|
  {
  }

  lemma ResetSize<T(!new)>(before: seq<T>, after: seq<T>, states: seq<Flags>, changes: map<int, Flags>, none: T)
    requires Reset(before, after, states, changes, {}, none)
    ensures |after| == |before|
  {
  }

  // ---------------------------------------------------------------- tables

  /** The changes of the keys that are not left. */
  function Taken<K, V>(changes: map<K, V>, left: set<K>): (r: map<K, V>) {
    map k | k in changes && k !in left :: changes[k]
  }

  lemma NoneChanged<V>(before: map<Pg, V>, changes: map<Pg, V>, gone: V)
    ensures Changed(before, Taken(changes, changes.Keys), gone) == before
  {
  }

  lemma OneChanged<V>(before: map<Pg, V>, changes: map<Pg, V>, left: set<Pg>, gone: V, pg: Pg)
    requires pg in left && left <= changes.Keys
    ensures Changed(before, Taken(changes, left - {pg}), gone)
            == if changes[pg] == gone then Changed(before, Taken(changes, left), gone) - {pg}
               else Changed(before, Taken(changes, left), gone)[pg := changes[pg]]
  {
  }

  lemma NoneMerged<K, V>(before: map<K, V>, changes: map<K, V>)
    ensures Merged(before, Taken(changes, changes.Keys)) == before
  {
  }

  lemma OneMerged<K, V>(before: map<K, V>, changes: map<K, V>, left: set<K>, k: K)
    requires k in left && left <= changes.Keys
    ensures Merged(before, Taken(changes, left - {k})) == Merged(before, Taken(changes, left))[k := changes[k]]
  {
  }

  method ChangeAll<V(==)>(table: map<Pg, V>, changes: map<Pg, V>, gone: V) returns (r: map<Pg, V>)
    ensures r == Changed(table, changes, gone)
  {
    hide Changed;
    r := table;
    var left := changes.Keys;
    NoneChanged(table, changes, gone);
    while left != {}
      invariant left <= changes.Keys && r == Changed(table, Taken(changes, left), gone)
      decreases |left|
    {
      var pg := PickMember(left);
      OneChanged(table, changes, left, gone, pg);
      if changes[pg] == gone { r := r - {pg}; } else { r := r[pg := changes[pg]]; }
      left := left - {pg};
    }
    assert Taken(changes, left) == changes;
  }

  method MergeAll<K(==), V>(table: map<K, V>, changes: map<K, V>) returns (r: map<K, V>)
    ensures r == Merged(table, changes)
  {
    hide Merged;
    r := table;
    var left := changes.Keys;
    NoneMerged(table, changes);
    while left != {}
      invariant left <= changes.Keys && r == Merged(table, Taken(changes, left))
      decreases |left|
    {
      var k := PickMember(left);
      OneMerged(table, changes, left, k);
      r := r[k := changes[k]];
      left := left - {k};
    }
    assert Taken(changes, left) == changes;
  }

  method RemoveAll<K(==), V>(table: map<K, V>, keys: seq<K>) returns (r: map<K, V>)
    ensures r == Without(table, keys)
  {
    r := table;
    var i := 0;
    while i < |keys|
      invariant 0 <= i <= |keys| && r == Without(table, keys[..i])
    {
      assert keys[..i + 1] == keys[..i] + [keys[i]];
      r := r - {keys[i]};
      i := i + 1;
    }
    assert keys[..i] == keys;
  }

  predicate WritesUpmap(c: Change) { c.newUpmap != map[] || c.oldUpmap != [] }
  predicate WritesUpmapItems(c: Change) { c.newUpmapItems != map[] || c.oldUpmapItems != [] }
  predicate WritesUpmapPrimary(c: Change) { c.newUpmapPrimary != map[] || c.oldUpmapPrimary != [] }
  predicate WritesProfiles(c: Change) { c.newProfiles != map[] || c.oldProfiles != [] }

  lemma NothingWritten<K, V>(table: map<K, V>)
    ensures Merged(table, map[]) == table && Without(table, []) == table
  {
  }

  // ---------------------------------------------------------------- snapshots

  /** One map: its plain fields and references to its tables, which other snapshots may share. */
  class Snapshot {
    var head: Header
    const pools: PoolTable
    const states: StateVector
    const weights: WeightVector
    const affinity: AffinityVector
    const addresses: AddressVector
    const pgTemp: PgTempTable
    const primaryTemp: PrimaryTempTable
    const upmap: UpmapTable
    const upmapItems: UpmapItemTable
    const upmapPrimary: UpmapPrimaryTable
    const profiles: ProfileTable

    constructor (head: Header, pools: PoolTable, states: StateVector, weights: WeightVector, affinity: AffinityVector,
                 addresses: AddressVector,
                 pgTemp: PgTempTable, primaryTemp: PrimaryTempTable, upmap: UpmapTable,
                 upmapItems: UpmapItemTable, upmapPrimary: UpmapPrimaryTable, profiles: ProfileTable)
      ensures this.head == head && this.pools == pools
      ensures this.states == states && this.weights == weights && this.affinity == affinity
              && this.addresses == addresses
      ensures this.pgTemp == pgTemp && this.primaryTemp == primaryTemp && this.upmap == upmap
      ensures this.upmapItems == upmapItems && this.upmapPrimary == upmapPrimary && this.profiles == profiles
    {
      this.head, this.pools := head, pools;
      this.states, this.weights, this.affinity, this.addresses := states, weights, affinity, addresses;
      this.pgTemp, this.primaryTemp, this.upmap := pgTemp, primaryTemp, upmap;
      this.upmapItems, this.upmapPrimary, this.profiles := upmapItems, upmapPrimary, profiles;
    }

    ghost function Tables(): set<object> {
      {this, pools, states, weights, affinity, addresses, pgTemp, primaryTemp, upmap, upmapItems, upmapPrimary,
       profiles}
    }

    /** The map as a value, with nothing shared. */
    ghost function Value(): Flat
      reads `head, pools`pools, pools`names, states`states, weights`weights, affinity`affinity, addresses`addresses
      reads pgTemp`pgTemp, primaryTemp`primaryTemp, upmap`upmap, upmapItems`upmapItems, upmapPrimary`upmapPrimary,
          profiles`profiles
    {
      Flat(head, pools.pools, pools.names, states.states, weights.weights, affinity.affinity, addresses.addresses,
           pgTemp.pgTemp, primaryTemp.primaryTemp, upmap.upmap, upmapItems.upmapItems, upmapPrimary.upmapPrimary,
               profiles.profiles)
    }
  }

  /** What an update writes is not shared with any older snapshot. */
  twostate predicate Owned(new s: Snapshot, c: Change) {
    && fresh(s)
    && (WritesPools(c) ==> fresh(s.pools)) && (WritesStates(c) ==> fresh(s.states))
       && (WritesWeights(c) ==> fresh(s.weights))
    && (WritesAffinity(c) ==> fresh(s.affinity)) && (WritesAddresses(c) ==> fresh(s.addresses))
    && (c.newPgTemp != map[] ==> fresh(s.pgTemp)) && (c.newPrimaryTemp != map[] ==> fresh(s.primaryTemp))
    && (WritesUpmap(c) ==> fresh(s.upmap)) && (WritesUpmapItems(c) ==> fresh(s.upmapItems))
    && (WritesUpmapPrimary(c) ==> fresh(s.upmapPrimary)) && (WritesProfiles(c) ==> fresh(s.profiles))
  }

  // Each table is copied when it is going to be written.

  method CopyPoolTable(t: PoolTable, write: bool) returns (r: PoolTable)
    ensures r.pools == old(t.pools) && r.names == old(t.names)
    ensures if write then fresh(r) else r == t
  {
    if write { r := new PoolTable(t.pools, t.names); } else { r := t; }
  }

  method CopyStateVector(t: StateVector, write: bool) returns (r: StateVector)
    ensures r.states == old(t.states)
    ensures if write then fresh(r) else r == t
  {
    if write { r := new StateVector(t.states); } else { r := t; }
  }

  method CopyWeightVector(t: WeightVector, write: bool) returns (r: WeightVector)
    ensures r.weights == old(t.weights)
    ensures if write then fresh(r) else r == t
  {
    if write { r := new WeightVector(t.weights); } else { r := t; }
  }

  method CopyAffinityVector(t: AffinityVector, write: bool) returns (r: AffinityVector)
    ensures r.affinity == old(t.affinity)
    ensures if write then fresh(r) else r == t
  {
    if write { r := new AffinityVector(t.affinity); } else { r := t; }
  }

  method CopyAddressVector(t: AddressVector, write: bool) returns (r: AddressVector)
    ensures r.addresses == old(t.addresses)
    ensures if write then fresh(r) else r == t
  {
    if write { r := new AddressVector(t.addresses); } else { r := t; }
  }

  method CopyPgTempTable(t: PgTempTable, write: bool) returns (r: PgTempTable)
    ensures r.pgTemp == old(t.pgTemp)
    ensures if write then fresh(r) else r == t
  {
    if write { r := new PgTempTable(t.pgTemp); } else { r := t; }
  }

  method CopyPrimaryTempTable(t: PrimaryTempTable, write: bool) returns (r: PrimaryTempTable)
    ensures r.primaryTemp == old(t.primaryTemp)
    ensures if write then fresh(r) else r == t
  {
    if write { r := new PrimaryTempTable(t.primaryTemp); } else { r := t; }
  }

  method CopyUpmapTable(t: UpmapTable, write: bool) returns (r: UpmapTable)
    ensures r.upmap == old(t.upmap)
    ensures if write then fresh(r) else r == t
  {
    if write { r := new UpmapTable(t.upmap); } else { r := t; }
  }

  method CopyUpmapItemTable(t: UpmapItemTable, write: bool) returns (r: UpmapItemTable)
    ensures r.upmapItems == old(t.upmapItems)
    ensures if write then fresh(r) else r == t
  {
    if write { r := new UpmapItemTable(t.upmapItems); } else { r := t; }
  }

  method CopyUpmapPrimaryTable(t: UpmapPrimaryTable, write: bool) returns (r: UpmapPrimaryTable)
    ensures r.upmapPrimary == old(t.upmapPrimary)
    ensures if write then fresh(r) else r == t
  {
    if write { r := new UpmapPrimaryTable(t.upmapPrimary); } else { r := t; }
  }

  method CopyProfileTable(t: ProfileTable, write: bool) returns (r: ProfileTable)
    ensures r.profiles == old(t.profiles)
    ensures if write then fresh(r) else r == t
  {
    if write { r := new ProfileTable(t.profiles); } else { r := t; }
  }

  /** A new snapshot of the same value that shares every table the update does not write. */
  method CloneFor(current: Snapshot, c: Change) returns (next: Snapshot)
    ensures Owned(next, c) && next.Value() == old(current.Value())
  {
    hide WritesPools, WritesStates, WritesWeights, WritesAffinity, WritesAddresses, WritesUpmap, WritesUpmapItems,
        WritesUpmapPrimary, WritesProfiles;
    var pools := CopyPoolTable(current.pools, WritesPools(c));
    var states := CopyStateVector(current.states, WritesStates(c));
    var weights := CopyWeightVector(current.weights, WritesWeights(c));
    var affinity := CopyAffinityVector(current.affinity, WritesAffinity(c));
    var addresses := CopyAddressVector(current.addresses, WritesAddresses(c));
    var pgTemp := CopyPgTempTable(current.pgTemp, c.newPgTemp != map[]);
    var primaryTemp := CopyPrimaryTempTable(current.primaryTemp, c.newPrimaryTemp != map[]);
    var upmap := CopyUpmapTable(current.upmap, WritesUpmap(c));
    var upmapItems := CopyUpmapItemTable(current.upmapItems, WritesUpmapItems(c));
    var upmapPrimary := CopyUpmapPrimaryTable(current.upmapPrimary, WritesUpmapPrimary(c));
    var profiles := CopyProfileTable(current.profiles, WritesProfiles(c));
    next := new Snapshot(current.head, pools, states, weights, affinity, addresses,
                         pgTemp, primaryTemp, upmap, upmapItems, upmapPrimary, profiles);
  }

  /** The changes to pools and names. */
  method ApplyPools(t: PoolTable, c: Change) returns (ok: bool)
    requires Linked(t.pools, t.names) && Decoded(c)
    modifies (if WritesPools(c) then {t} else {})`pools, (if WritesPools(c) then {t} else {})`names
    ensures ok ==> RenamesKnown(old(t.pools), c) && t.pools == NextPools(old(t.pools), c) && Linked(t.pools, t.names)
    ensures RenamesKnown(old(t.pools), c) && NoClash(old(t.names), c.newPoolNames) ==> ok
  {
    hide Linked, NoClash, Renamed, Without, RenamesKnown;
    ghost var before := t.pools;
    AddKeeps(t.pools, t.names, c);
    AddPools(t, c.newPools);
    KnownKeys(before, c);
    ok := RenamePools(t, c.newPoolNames);
    if !ok { return; }
    RemovePools(t, c.oldPools);
  }

  /** New pools have no name, and replaced ones keep theirs. */
  lemma AddKeeps(pools: map<int, PoolInfo>, names: map<string, int>, c: Change)
    requires Linked(pools, names) && Decoded(c)
    ensures Linked(WithPools(pools, c.newPools), names)
  {
    var after := WithPools(pools, c.newPools);
    forall id | id in after && after[id].name != "" ensures after[id].name in names && names[after[id].name] == id {
      assert id in pools && pools[id].name == after[id].name;
    }
  }

  lemma KnownKeys(pools: map<int, PoolInfo>, c: Change)
    ensures RenamesKnown(pools, c) <==> c.newPoolNames.Keys <= WithPools(pools, c.newPools).Keys
  {
    if RenamesKnown(pools, c) {
      forall id | id in c.newPoolNames.Keys ensures id in WithPools(pools, c.newPools).Keys { }
    }
    if c.newPoolNames.Keys <= WithPools(pools, c.newPools).Keys {
      forall id | id in c.newPoolNames
        ensures id in pools || id in c.newPools
      {
        assert id in WithPools(pools, c.newPools).Keys;
      }
    }
  }

  /** The changes to temporary mappings and profiles. */
  method ApplyTemps(pgTemp: PgTempTable, primaryTemp: PrimaryTempTable, profiles: ProfileTable, c: Change)
    modifies (if c.newPgTemp != map[] then {pgTemp} else {})`pgTemp,
             (if c.newPrimaryTemp != map[] then {primaryTemp} else {})`primaryTemp
    modifies (if WritesProfiles(c) then {profiles} else {})`profiles
    ensures pgTemp.pgTemp == Changed(old(pgTemp.pgTemp), c.newPgTemp, [])
    ensures primaryTemp.primaryTemp == Changed(old(primaryTemp.primaryTemp), c.newPrimaryTemp, -1)
    ensures profiles.profiles == Merged(Without(old(profiles.profiles), c.oldProfiles), c.newProfiles)
  {
    hide Changed, Merged, Without;
    NothingChanged(pgTemp.pgTemp, []);
    NothingChanged(primaryTemp.primaryTemp, -1);
    NothingWritten(profiles.profiles);
    if c.newPgTemp != map[] { pgTemp.pgTemp := ChangeAll(pgTemp.pgTemp, c.newPgTemp, []); }
    if c.newPrimaryTemp != map[] { primaryTemp.primaryTemp := ChangeAll(primaryTemp.primaryTemp, c.newPrimaryTemp,
        -1); }
    if WritesProfiles(c) {
      var kept := RemoveAll(profiles.profiles, c.oldProfiles);
      profiles.profiles := MergeAll(kept, c.newProfiles);
    }
  }

  /** The changes to upmaps. */
  method ApplyUpmaps(upmap: UpmapTable, upmapItems: UpmapItemTable, upmapPrimary: UpmapPrimaryTable, c: Change)
    modifies (if WritesUpmap(c) then {upmap} else {})`upmap,
             (if WritesUpmapItems(c) then {upmapItems} else {})`upmapItems
    modifies (if WritesUpmapPrimary(c) then {upmapPrimary} else {})`upmapPrimary
    ensures upmap.upmap == Without(Merged(old(upmap.upmap), c.newUpmap), c.oldUpmap)
    ensures upmapItems.upmapItems == Without(Merged(old(upmapItems.upmapItems), c.newUpmapItems), c.oldUpmapItems)
    ensures upmapPrimary.upmapPrimary ==
              Without(Merged(old(upmapPrimary.upmapPrimary), c.newUpmapPrimary), c.oldUpmapPrimary)
  {
    hide Merged, Without;
    NothingWritten(upmap.upmap);
    NothingWritten(upmapItems.upmapItems);
    NothingWritten(upmapPrimary.upmapPrimary);
    if WritesUpmap(c) {
      var merged := MergeAll(upmap.upmap, c.newUpmap);
      upmap.upmap := RemoveAll(merged, c.oldUpmap);
    }
    if WritesUpmapItems(c) {
      var merged := MergeAll(upmapItems.upmapItems, c.newUpmapItems);
      upmapItems.upmapItems := RemoveAll(merged, c.oldUpmapItems);
    }
    if WritesUpmapPrimary(c) {
      var merged := MergeAll(upmapPrimary.upmapPrimary, c.newUpmapPrimary);
      upmapPrimary.upmapPrimary := RemoveAll(merged, c.oldUpmapPrimary);
    }
  }

  lemma NothingChanged<V>(table: map<Pg, V>, gone: V)
    ensures Changed(table, map[], gone) == table
  {
  }

  // Each stage changes its tables of a snapshot and leaves the value otherwise alone.

  method StagePools(s: Snapshot, c: Change) returns (ok: bool)
    requires Linked(s.Value().pools, s.Value().names) && Decoded(c)
    modifies (if WritesPools(c) then {s.pools} else {})`pools, (if WritesPools(c) then {s.pools} else {})`names
    ensures ok ==> s.Value() == old(s.Value()).(pools := NextPools(old(s.Value()).pools, c), names := s.Value().names)
    ensures ok ==> RenamesKnown(old(s.Value()).pools, c) && Linked(s.Value().pools, s.Value().names)
    ensures RenamesKnown(old(s.Value()).pools, c) && NoClash(old(s.Value()).names, c.newPoolNames) ==> ok
  {
    hide Linked, NextPools, NoClash, Decoded, RenamesKnown, WritesPools;
    ok := ApplyPools(s.pools, c);
  }

  ghost predicate Even(f: Flat, n: nat) {
    |f.states| == |f.weights| == |f.addresses| == n && (f.affinity == [] || |f.affinity| == n)
  }

  method StageOsds(s: Snapshot, c: Change, ghost n: nat, size: nat) returns (ok: bool)
    requires Even(s.Value(), n) && size == if Resizes(c) then c.newMaxOsd else n
    modifies (if WritesStates(c) then {s.states} else {})`states, (if WritesWeights(c) then {s.weights} else {})`weights
    modifies (if WritesAffinity(c) then {s.affinity} else {})`affinity,
             (if WritesAddresses(c) then {s.addresses} else {})`addresses
    ensures ok <==> OsdsKnown(c, size)
    ensures ok ==> var f := old(s.Value());
                   s.Value() == f.(states := NextStates(f.states, c), weights := NextWeights(f.weights, c),
                                   affinity := NextAffinity(f.affinity, f.states, c, size),
                                       addresses := NextAddresses(f.addresses, f.states, c))
  {
    hide NextStates, NextWeights, NextAffinity, NextAddresses, OsdsKnown, WritesStates, WritesWeights, WritesAffinity,
        WritesAddresses;
    ok := ApplyOsds(s.states, s.weights, s.affinity, s.addresses, c, size);
  }

  method StageTemps(s: Snapshot, c: Change)
    modifies (if c.newPgTemp != map[] then {s.pgTemp} else {})`pgTemp,
             (if c.newPrimaryTemp != map[] then {s.primaryTemp} else {})`primaryTemp
    modifies (if WritesProfiles(c) then {s.profiles} else {})`profiles
    ensures var f := old(s.Value());
            s.Value() == f.(pgTemp := Changed(f.pgTemp, c.newPgTemp, []),
                            primaryTemp := Changed(f.primaryTemp, c.newPrimaryTemp, -1),
                            profiles := Merged(Without(f.profiles, c.oldProfiles), c.newProfiles))
  {
    hide Changed, Merged, Without, WritesProfiles;
    ApplyTemps(s.pgTemp, s.primaryTemp, s.profiles, c);
  }

  method StageUpmaps(s: Snapshot, c: Change)
    modifies (if WritesUpmap(c) then {s.upmap} else {})`upmap,
             (if WritesUpmapItems(c) then {s.upmapItems} else {})`upmapItems
    modifies (if WritesUpmapPrimary(c) then {s.upmapPrimary} else {})`upmapPrimary
    ensures var f := old(s.Value());
            s.Value() == f.(upmap := Without(Merged(f.upmap, c.newUpmap), c.oldUpmap),
                            upmapItems := Without(Merged(f.upmapItems, c.newUpmapItems), c.oldUpmapItems),
                            upmapPrimary := Without(Merged(f.upmapPrimary, c.newUpmapPrimary), c.oldUpmapPrimary))
  {
    hide Merged, Without, WritesUpmap, WritesUpmapItems, WritesUpmapPrimary;
    ApplyUpmaps(s.upmap, s.upmapItems, s.upmapPrimary, c);
  }

  /** The clone with its header brought up to date. */
  method Begin(current: Snapshot, c: Change) returns (s: Snapshot)
    requires c.newFlags < 0x1_0000_0000
    ensures Owned(s, c) && s.Value() == old(current.Value()).(head := NextHeader(old(current.Value()).head, c))
  {
    hide NextHeader, WritesPools, WritesStates, WritesWeights, WritesAffinity, WritesAddresses, WritesUpmap,
        WritesUpmapItems, WritesUpmapPrimary, WritesProfiles;
    s := CloneFor(current, c);
    s.head := NextHeader(s.head, c);
  }

  method AllPoolsNamed(s: Snapshot) returns (ok: bool)
    ensures ok == AllNamed(s.Value().pools)
  {
    ok := CheckNamed(s.pools.pools);
  }

  method Numbered(current: Snapshot, c: Change) returns (ok: bool, size: nat)
    ensures ok <==> c.fsid == current.Value().head.fsid && c.epoch == (current.Value().head.epoch + 1) % 0x1_0000_0000
    ensures size == NextSize(current.Value(), c)
  {
    ok := c.fsid == current.head.fsid && c.epoch == (current.head.epoch + 1) % 0x1_0000_0000;
    size := if c.newMaxOsd >= 0 then c.newMaxOsd else current.head.maxOsd;
  }

  /** Applies an update without a full map. Nothing that existed before is written: neither
      the current map nor any snapshot that shares tables with it. */
  method ApplyChange(current: Snapshot, c: Change) returns (next: Snapshot?)
    requires Good(current.Value()) && Decoded(c)
    ensures next != null ==>
              && fresh(next) && Fits(old(current.Value()), c)
              && next.Value() == Next(old(current.Value()), c, next.Value().names) && Good(next.Value())
    ensures Fits(old(current.Value()), c) && NoClash(old(current.Value()).names, c.newPoolNames) ==> next != null
  {
    hide Snapshot.Value, Bijective, Linked, NextPools, NextStates, NextWeights, NextAffinity, NextAddresses, Changed,
        Merged, Without;
    hide AllNamed, NoClash, NextHeader, Decoded, OsdsKnown, RenamesKnown;
    hide WritesPools, WritesStates, WritesWeights, WritesAffinity, WritesAddresses, WritesUpmap, WritesUpmapItems,
        WritesUpmapPrimary, WritesProfiles;
    ghost var f := current.Value();
    var ok, size := Numbered(current, c);
    if !ok { return null; }
    DecodedFlags(c);
    BijectiveIsLinked(f.pools, f.names);
    var s := Begin(current, c);
    ok := StagePools(s, c);
    if !ok { return null; }
    ok := StageOsds(s, c, f.head.maxOsd, size);
    if !ok { return null; }
    StageTemps(s, c);
    StageUpmaps(s, c);
    ok := AllPoolsNamed(s);
    if !ok { return null; }
    NextIsGood(f, c, s.Value().names);
    return s;
  }

  /** A full map in place of changes: what decoding it gives, if it is the map announced. */
  ghost predicate Announced(f: Flat, c: Change, r: Flat) {
    r.head.fsid == f.head.fsid && r.head.epoch == c.epoch && r.head.crc == c.fullCrc
  }

  method FromFlat(r: Flat) returns (next: Snapshot)
    ensures fresh(next) && next.Value() == r
  {
    var pools := new PoolTable(r.pools, r.names);
    var states := new StateVector(r.states);
    var weights := new WeightVector(r.weights);
    var affinity := new AffinityVector(r.affinity);
    var addresses := new AddressVector(r.addresses);
    var pgTemp := new PgTempTable(r.pgTemp);
    var primaryTemp := new PrimaryTempTable(r.primaryTemp);
    var upmap := new UpmapTable(r.upmap);
    var upmapItems := new UpmapItemTable(r.upmapItems);
    var upmapPrimary := new UpmapPrimaryTable(r.upmapPrimary);
    var profiles := new ProfileTable(r.profiles);
    next := new Snapshot(r.head, pools, states, weights, affinity, addresses, pgTemp, primaryTemp, upmap, upmapItems,
                         upmapPrimary, profiles);
  }

  /** What an update may lead to: the map with its changes, if it fits and its renames succeed,
      which they do when no names clash; or the full map it carries, if that is the one it announces. */
  ghost predicate Outcome(decode: seq<int> -> Option<Flat>, f: Flat, c: Change, next: Option<Flat>)
    requires Decoded(c)
  {
    && (next.Some? ==> next.value.head.epoch == (f.head.epoch + 1) % 0x1_0000_0000)
    && (c.fullMap == [] && next.Some? ==>
          Fits(f, c) && Good(next.value) && next.value == Next(f, c, next.value.names))
    && (c.fullMap == [] && Fits(f, c) && NoClash(f.names, c.newPoolNames) ==> next.Some?)
    && (c.fullMap != [] ==>
          next == if c.fsid == f.head.fsid && c.epoch == (f.head.epoch + 1) % 0x1_0000_0000
                     && decode(c.fullMap).Some? && Announced(f, c, decode(c.fullMap).value)
                  then decode(c.fullMap) else None)
  }

  /** The value of a snapshot, if there is one. */
  ghost function Shown(s: Snapshot?): Option<Flat>
    reads if s == null then {} else s.Tables()
  {
    if s == null then None else Some(s.Value())
  }

  /** Applies an update, whether it carries changes or a full map. */
  method Apply(current: Snapshot, c: Change, decode: seq<int> -> Option<Flat>) returns (next: Snapshot?)
    requires Good(current.Value()) && Decoded(c)
    ensures next != null ==> fresh(next)
    ensures Outcome(decode, old(current.Value()), c, Shown(next))
  {
    hide Snapshot.Value, Good, NoClash, Fits;
    ghost var f := current.Value();
    DecodedFlags(c);
    var ok, size := Numbered(current, c);
    if !ok { UnnumberedUnfit(f, c); return null; }
    if |c.fullMap| != 0 {
      var replacement := decode(c.fullMap);
      if replacement.None? { return null; }
      var fsid := Identity(current);
      if replacement.value.head.fsid != fsid || replacement.value.head.epoch != c.epoch
          || replacement.value.head.crc != c.fullCrc { return null; }
      next := FromFlat(replacement.value);
      return;
    }
    next := ApplyChange(current, c);
    if next != null { NextEpoch(f, c, next.Value().names); }
  }

  method Identity(current: Snapshot) returns (fsid: int)
    ensures fsid == current.Value().head.fsid
  {
    fsid := current.head.fsid;
  }

  lemma UnnumberedUnfit(f: Flat, c: Change)
    requires !(c.fsid == f.head.fsid && c.epoch == (f.head.epoch + 1) % 0x1_0000_0000)
    ensures !Fits(f, c)
  {
  }

  lemma NextEpoch(f: Flat, c: Change, names: map<string, int>)
    requires Fits(f, c) && c.newFlags < 0x1_0000_0000
    ensures Next(f, c, names).head.epoch == (f.head.epoch + 1) % 0x1_0000_0000
  {
  }

  lemma DecodedFlags(c: Change)
    requires Decoded(c)
    ensures c.newFlags < 0x1_0000_0000
  {
  }

  lemma BijectiveIsLinked(pools: map<int, PoolInfo>, names: map<string, int>)
    requires Bijective(pools, names)
    ensures Linked(pools, names)
  {
  }
}
