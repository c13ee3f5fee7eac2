/** What an incremental map update means: every field of the next map as a function of
    the current one, as if the current map had been cloned deeply and then changed. */
module Incremental {
  import opened Straw2
  import opened P = Placement

  type Flags = bv32

  const EXISTS: Flags := 0x1
  const UP: Flags := 0x2
  const AUTO_OUT_OR_NEW: Flags := 0xC
  const STOP: Flags := 0x1000

  /** A pool: its name, and everything else about it. */
  datatype PoolInfo = PoolInfo(name: string, settings: int)

  datatype Header = Header(fsid: int, epoch: Word, created: int, modified: int, poolMax: int, flags: Word, maxOsd: nat,
                           crushData: seq<int>, crushVersion: Word, lastUp: int, lastIn: int,
                           crc: Word, crcVerified: bool, applied: bool,
                           removedSnaps: map<int, seq<(int, int)>>, purgedSnaps: map<int, seq<(int, int)>>)

  datatype Flat = Flat(head: Header, pools: map<int, PoolInfo>, names: map<string, int>,
                       states: seq<Flags>, weights: seq<Word>, affinity: seq<Word>, addresses: seq<seq<int>>,
                       pgTemp: map<Pg, seq<int>>, primaryTemp: map<Pg, int>,
                       upmap: map<Pg, seq<int>>, upmapItems: map<Pg, seq<Remap>>, upmapPrimary: map<Pg, int>,
                       profiles: map<string, map<string, string>>)

  datatype Change = Change(fsid: int, epoch: Word, modified: int, newPoolMax: int, newFlags: int, fullMap: seq<int>,
                           crushData: seq<int>, newMaxOsd: int, fullCrc: Word,
                           newPools: map<int, PoolInfo>, newPoolNames: map<int, string>, oldPools: seq<int>,
                           newUp: map<int, seq<int>>, newState: map<int, Flags>, newWeight: map<int, Word>,
                           newAffinity: map<int, Word>, newPgTemp: map<Pg, seq<int>>, newPrimaryTemp: map<Pg, int>,
                           newProfiles: map<string, map<string, string>>, oldProfiles: seq<string>,
                           newUpmap: map<Pg, seq<int>>, oldUpmap: seq<Pg>,
                           newUpmapItems: map<Pg, seq<Remap>>, oldUpmapItems: seq<Pg>,
                           newUpmapPrimary: map<Pg, int>, oldUpmapPrimary: seq<Pg>,
                           newRemovedSnaps: map<int, seq<(int, int)>>, newPurgedSnaps: map<int, seq<(int, int)>>,
                           newLastUp: int, newLastIn: int)

  // ---------------------------------------------------------------- header

  function NextHeader(h: Header, c: Change): (n: Header)
    requires c.newFlags < 0x1_0000_0000
  {
    h.(epoch := c.epoch, modified := c.modified, crc := c.fullCrc, crcVerified := false, applied := true,
       poolMax := if c.newPoolMax != -1 then c.newPoolMax else h.poolMax,
       flags := if c.newFlags >= 0 then c.newFlags else h.flags,
       maxOsd := if c.newMaxOsd >= 0 then c.newMaxOsd else h.maxOsd,
       crushData := if c.crushData != [] then c.crushData else h.crushData,
       crushVersion := if c.crushData != [] then (h.crushVersion + 1) % 0x1_0000_0000 else h.crushVersion,
       lastUp := if c.newLastUp != 0 then c.newLastUp else h.lastUp,
       lastIn := if c.newLastIn != 0 then c.newLastIn else h.lastIn,
       removedSnaps := c.newRemovedSnaps, purgedSnaps := c.newPurgedSnaps)
  }

  // ---------------------------------------------------------------- pools and their names

  /** A pool that is replaced keeps its name; a new one has none yet. */
  function WithPools(pools: map<int, PoolInfo>, fresh_: map<int, PoolInfo>): (r: map<int, PoolInfo>) {
    map id | id in pools.Keys + fresh_.Keys ::
      if id !in fresh_ then pools[id] else if id in pools then fresh_[id].(name := pools[id].name) else fresh_[id]
  }

  function Renamed(pools: map<int, PoolInfo>, names: map<int, string>): (r: map<int, PoolInfo>) {
    map id | id in pools :: if id in names then pools[id].(name := names[id]) else pools[id]
  }

  function Without<K, V>(m: map<K, V>, keys: seq<K>): (r: map<K, V>) { map k | k in m && k !in keys :: m[k] }

  function NextPools(pools: map<int, PoolInfo>, c: Change): (r: map<int, PoolInfo>) {
    Without(Renamed(WithPools(pools, c.newPools), c.newPoolNames), c.oldPools)
  }

  /** Names lead to pools of that name, and pools with a name are found by it. */
  ghost predicate Linked(pools: map<int, PoolInfo>, names: map<string, int>) {
    && (forall name :: name in names ==> names[name] in pools && pools[names[name]].name == name)
    && (forall id :: id in pools && pools[id].name != "" ==> pools[id].name in names && names[pools[id].name] == id)
  }

  predicate AllNamed(pools: map<int, PoolInfo>) { forall id :: id in pools ==> pools[id].name != "" }

  /** The pool names and ids are inverse to each other. */
  ghost predicate Bijective(pools: map<int, PoolInfo>, names: map<string, int>) {
    && (forall name :: name in names ==> names[name] in pools && pools[names[name]].name == name)
    && (forall id :: id in pools ==> pools[id].name in names && names[pools[id].name] == id)
  }

  /** The names are determined by the pools. */
  lemma NamesUnique(pools: map<int, PoolInfo>, a: map<string, int>, b: map<string, int>)
    requires Bijective(pools, a) && Bijective(pools, b)
    ensures a == b
  {
    forall name ensures name in a <==> name in b {
      if name in a { var id := a[name]; assert id in pools && pools[id].name == name; }
      if name in b { var id := b[name]; assert id in pools && pools[id].name == name; }
    }
    forall name | name in a ensures a[name] == b[name] {
      var id := a[name];
      assert id in pools && pools[id].name == name;
    }
  }

  predicate RenamesKnown(pools: map<int, PoolInfo>, c: Change) {
    forall id :: id in c.newPoolNames ==> id in pools || id in c.newPools
  }

  /** No two pools get one name, and no pool gets a name that another pool holds. */
  predicate NoClash(names: map<string, int>, renames: map<int, string>) {
    && (forall id :: id in renames && renames[id] in names ==> names[renames[id]] == id)
    && (forall id, other :: id in renames && other in renames && renames[id] == renames[other] ==> id == other)
  }

  // ---------------------------------------------------------------- OSD vectors

  function Resized<T>(values: seq<T>, size: nat, filler: T): (r: seq<T>)
    ensures |r| == size
  {
    if |values| > size then values[..size] else values + seq(size - |values|, _ => filler)
  }

  function Fitted<T>(values: seq<T>, c: Change, filler: T): (r: seq<T>) {
    if c.newMaxOsd >= 0 then Resized(values, c.newMaxOsd, filler) else values
  }

  function FullAffinity(size: nat): (r: seq<Word>) { seq(size, _ => FULL_AFFINITY) }

  /** The affinity vector: absent until some OSD gets an affinity of its own. */
  function FittedAffinity(values: seq<Word>, c: Change, maxOsd: nat): (r: seq<Word>) {
    var sized := if values == [] then [] else Fitted(values, c, FULL_AFFINITY);
    if c.newAffinity != map[] && sized == [] then FullAffinity(maxOsd) else sized
  }

  /** A weight brings an OSD in, which clears the marks of having been put out or being new. */
  function Weighed(state: Flags, weight: Word): Flags { if weight != 0 then state & !AUTO_OUT_OR_NEW else state }

  function Toggle(change: Flags): Flags { if change == 0 then UP else change }

  /** An existing OSD whose existence is toggled is destroyed, and forgets everything. */
  predicate Destroys(state: Flags, change: Flags) { state & EXISTS != 0 && Toggle(change) & EXISTS != 0 }

  function Toggled(state: Flags, change: Flags): Flags { if Destroys(state, change) then 0 else state ^ Toggle(change) }

  function Booted(state: Flags): Flags { (state | (EXISTS | UP)) & !STOP }

  function StateIn(state: Flags, c: Change, osd: int): Flags {
    if osd in c.newWeight then Weighed(state, c.newWeight[osd]) else state
  }

  predicate DestroyedBy(state: Flags, c: Change, osd: int) {
    osd in c.newState && Destroys(StateIn(state, c, osd), c.newState[osd])
  }

  function NextState(state: Flags, c: Change, osd: int): Flags {
    var weighed := StateIn(state, c, osd);
    var toggled := if osd in c.newState then Toggled(weighed, c.newState[osd]) else weighed;
    if osd in c.newUp then Booted(toggled) else toggled
  }

  function NextStates(states: seq<Flags>, c: Change): (r: seq<Flags>) {
    var sized := Fitted(states, c, 0);
    seq(|sized|, osd requires 0 <= osd < |sized| => NextState(sized[osd], c, osd))
  }

  function NextWeights(weights: seq<Word>, c: Change): (r: seq<Word>) {
    var sized := Fitted(weights, c, 0);
    seq(|sized|, osd requires 0 <= osd < |sized| => if osd in c.newWeight then c.newWeight[osd] else sized[osd])
  }

  function NextAffinity(affinity: seq<Word>, states: seq<Flags>, c: Change, maxOsd: nat): (r: seq<Word>) {
    var sized, flags := FittedAffinity(affinity, c, maxOsd), Fitted(states, c, 0);
    seq(|sized|, osd requires 0 <= osd < |sized| =>
      if osd < |flags| && DestroyedBy(flags[osd], c, osd) then FULL_AFFINITY
      else if osd in c.newAffinity then c.newAffinity[osd] else sized[osd])
  }

  function NextAddresses(addresses: seq<seq<int>>, states: seq<Flags>, c: Change): (r: seq<seq<int>>) {
    var sized, flags := Fitted(addresses, c, []), Fitted(states, c, 0);
    seq(|sized|, osd requires 0 <= osd < |sized| =>
      if osd in c.newUp then c.newUp[osd]
      else if osd < |flags| && DestroyedBy(flags[osd], c, osd) then [] else sized[osd])
  }

  predicate InRange<V>(m: map<int, V>, size: nat) { forall osd :: osd in m ==> 0 <= osd < size }

  predicate OsdsKnown(c: Change, size: nat) {
    InRange(c.newWeight, size) && InRange(c.newAffinity, size) && InRange(c.newState, size) && InRange(c.newUp, size)
  }

  // ---------------------------------------------------------------- placement group tables

  function Changed<V(==)>(m: map<Pg, V>, changes: map<Pg, V>, gone: V): (r: map<Pg, V>) {
    map pg | pg in m.Keys + changes.Keys
        && !(pg in changes && changes[pg] == gone) :: if pg in changes then changes[pg] else m[pg]
  }

  function Merged<K, V>(m: map<K, V>, changes: map<K, V>): (r: map<K, V>) {
    map k | k in m.Keys + changes.Keys :: if k in changes then changes[k] else m[k]
  }

  // ---------------------------------------------------------------- the whole map

  /** What the decoder of updates guarantees. */
  ghost predicate Decoded(c: Change) {
    c.newFlags < 0x1_0000_0000 && forall id :: id in c.newPools ==> c.newPools[id].name == ""
  }

  ghost predicate Good(f: Flat) {
    && Bijective(f.pools, f.names)
    && Vectors(f)
  }

  predicate Vectors(f: Flat) {
    && |f.states| == f.head.maxOsd && |f.weights| == f.head.maxOsd && |f.addresses| == f.head.maxOsd
    && (f.affinity == [] || |f.affinity| == f.head.maxOsd)
  }

  function NextSize(f: Flat, c: Change): nat { if c.newMaxOsd >= 0 then c.newMaxOsd else f.head.maxOsd }

  /** The next map, except for its names, which the pools determine. */
  function Next(f: Flat, c: Change, names: map<string, int>): (n: Flat)
    requires c.newFlags < 0x1_0000_0000
  {
    Flat(NextHeader(f.head, c), NextPools(f.pools, c), names,
         NextStates(f.states, c), NextWeights(f.weights, c), NextAffinity(f.affinity, f.states, c, NextSize(f, c)),
         NextAddresses(f.addresses, f.states, c),
         Changed(f.pgTemp, c.newPgTemp, []), Changed(f.primaryTemp, c.newPrimaryTemp, -1),
         Without(Merged(f.upmap, c.newUpmap), c.oldUpmap),
         Without(Merged(f.upmapItems, c.newUpmapItems), c.oldUpmapItems),
         Without(Merged(f.upmapPrimary, c.newUpmapPrimary), c.oldUpmapPrimary),
         Merged(Without(f.profiles, c.oldProfiles), c.newProfiles))
  }

  /** What an update needs, apart from the names it gives. */
  ghost predicate Fits(f: Flat, c: Change) {
    && c.fsid == f.head.fsid && c.epoch == (f.head.epoch + 1) % 0x1_0000_0000
    && RenamesKnown(f.pools, c) && OsdsKnown(c, NextSize(f, c)) && AllNamed(NextPools(f.pools, c))
  }

  /** The next map keeps the OSD vectors in step and, with its names, the naming of pools. */
  lemma NextIsGood(f: Flat, c: Change, names: map<string, int>)
    requires Good(f) && c.newFlags < 0x1_0000_0000
    requires Linked(NextPools(f.pools, c), names) && AllNamed(NextPools(f.pools, c))
    ensures Good(Next(f, c, names))
  {
    hide Bijective, Linked, NextPools, AllNamed;
    NamedIsBijective(NextPools(f.pools, c), names);
  }

  lemma NamedIsBijective(pools: map<int, PoolInfo>, names: map<string, int>)
    requires Linked(pools, names) && AllNamed(pools)
    ensures Bijective(pools, names)
  {
  }
}
