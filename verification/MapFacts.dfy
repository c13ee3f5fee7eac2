/** What an update does to each entry of a map, said entry by entry: what an OSD, a pool or a
    placement group finds in the next map. */
module MapFacts {
  import opened Common
  import opened Straw2
  import opened P = Placement
  import opened Incremental
  import CopyOnWrite

  const AUTO_OUT: Flags := 0x4
  const NEW: Flags := 0x8

  /** All marks but these two. */
  const OTHER: Flags := 0xFFFF_FFF3

  /** The entry of an OSD, or what a longer vector is filled with. */
  function Entry<T>(values: seq<T>, osd: nat, filler: T): T { if osd < |values| then values[osd] else filler }

  /** What an update asks to flip in an OSD's state: a zero asks for UP. */
  function Asked(c: Change, osd: int): Flags
    requires osd in c.newState
  {
    if c.newState[osd] == 0 then 0x2 else c.newState[osd]
  }

  /** Exactly these bits differ. */
  predicate DiffersBy(after: Flags, before: Flags, bits: Flags) { after ^ before == bits }

  /** An OSD brought in by a weight: neither mark is left, all others are as before. */
  predicate Brought(after: Flags, before: Flags) {
    after & AUTO_OUT == 0 && after & NEW == 0 && after & OTHER == before & OTHER
  }

  function Unmarked(state: Flags): Flags { state & OTHER }

  /** A state without the marks of having been put out or being new, if the OSD got a weight. */
  function Cleared(state: Flags, c: Change, osd: int): Flags {
    if osd in c.newWeight && c.newWeight[osd] != 0 then Unmarked(state) else state
  }

  /** An OSD that is there and is asked to flip its existence. */
  predicate Removed(f: Flat, c: Change, osd: nat) {
    osd in c.newState && Entry(f.states, osd, 0) & 0x1 != 0 && Asked(c, osd) & 0x1 != 0
  }

  // ---------------------------------------------------------------- bits

  lemma WeightBits(state: Flags, weight: Word)
    ensures Weighed(state, weight) & 0x1 == state & 0x1
    ensures Weighed(state, weight) == if weight != 0 then Unmarked(state) else state
  {
    hide Unmarked;
    MaskSame(state);
  }

  lemma MaskSame(state: Flags)
    ensures state & !AUTO_OUT_OR_NEW == Unmarked(state) && Unmarked(state) & 0x1 == state & 0x1
  {
  }

  lemma MarkBits(state: Flags)
    ensures Brought(Unmarked(state), state)
  {
  }

  lemma XorBack(state: Flags, change: Flags)
    ensures (state ^ change) ^ state == change
  {
  }

  lemma FlipBits(state: Flags, change: Flags)
    ensures Destroys(state, change) ==> Toggled(state, change) == 0
    ensures !Destroys(state, change) ==> DiffersBy(Toggled(state, change), state, Toggle(change))
  {
    hide Destroys, Toggle;
    XorBack(state, Toggle(change));
  }

  lemma BootBits(state: Flags)
    ensures Booted(state) & 0x1 != 0 && Booted(state) & 0x2 != 0 && Booted(state) & 0x1000 == 0
    ensures Booted(state) & 0xFFFF_EFFC == state & 0xFFFF_EFFC
  {
  }

  // ---------------------------------------------------------------- states

  lemma BootedState(state: Flags, c: Change, osd: int)
    requires osd in c.newUp
    ensures var next := NextState(state, c, osd); next & 0x1 != 0 && next & 0x2 != 0 && next & 0x1000 == 0
    ensures osd !in c.newState && osd !in c.newWeight ==>
              NextState(state, c, osd) & 0xFFFF_EFFC == state & 0xFFFF_EFFC
  {
    hide Booted, Toggled, Weighed;
    var weighed := StateIn(state, c, osd);
    BootBits(if osd in c.newState then Toggled(weighed, c.newState[osd]) else weighed);
  }

  lemma RemovedState(state: Flags, c: Change, osd: int)
    ensures DestroyedBy(state, c, osd) <==> osd in c.newState && state & 0x1 != 0 && Asked(c, osd) & 0x1 != 0
  {
    hide Weighed, Unmarked;
    if osd in c.newWeight { WeightBits(state, c.newWeight[osd]); }
  }

  lemma FlippedState(state: Flags, c: Change, osd: int)
    requires osd in c.newState && osd !in c.newUp
    ensures DestroyedBy(state, c, osd) ==> NextState(state, c, osd) == 0
    ensures !DestroyedBy(state, c, osd) ==> DiffersBy(NextState(state, c, osd), Cleared(state, c, osd), Asked(c, osd))
  {
    hide Destroys, Toggled, Weighed, Booted, DiffersBy, StateIn, Cleared;
    WeighedIs(state, c, osd);
    FlipBits(StateIn(state, c, osd), c.newState[osd]);
  }

  lemma WeighedIs(state: Flags, c: Change, osd: int)
    ensures StateIn(state, c, osd) == Cleared(state, c, osd)
  {
    hide Weighed, Unmarked;
    if osd in c.newWeight { WeightBits(state, c.newWeight[osd]); }
  }

  lemma QuietState(state: Flags, c: Change, osd: int)
    requires osd !in c.newState && osd !in c.newUp
    ensures var next := NextState(state, c, osd);
            if osd in c.newWeight && c.newWeight[osd] != 0 then Brought(next, state) else next == state
  {
    hide Toggled, Booted, StateIn, Unmarked, Brought;
    WeighedIs(state, c, osd);
    MarkBits(state);
  }

  // ---------------------------------------------------------------- OSDs

  lemma FittedAt<T>(values: seq<T>, c: Change, filler: T, size: nat, osd: nat)
    requires |values| == size && osd < if c.newMaxOsd >= 0 then c.newMaxOsd else size
    ensures |Fitted(values, c, filler)| == (if c.newMaxOsd >= 0 then c.newMaxOsd else size)
    ensures Fitted(values, c, filler)[osd] == Entry(values, osd, filler)
  {
  }

  /** The entries of one OSD. */
  lemma EntriesOf(f: Flat, c: Change, names: map<string, int>, osd: nat)
    requires Vectors(f) && c.newFlags < 0x1_0000_0000 && osd < NextSize(f, c)
    ensures var n := Next(f, c, names);
            var state := Entry(f.states, osd, 0);
            && osd < |n.states| && osd < |n.addresses| && osd < |n.weights|
            && n.states[osd] == NextState(state, c, osd)
            && n.addresses[osd] == (if osd in c.newUp then c.newUp[osd] else if DestroyedBy(state, c, osd) then []
                                    else Entry(f.addresses, osd, []))
            && n.weights[osd] == (if osd in c.newWeight then c.newWeight[osd] else Entry(f.weights, osd, 0))
  {
    hide NextState, DestroyedBy, Fitted, NextHeader, NextPools, NextAffinity;
    FittedAt(f.states, c, 0, f.head.maxOsd, osd);
    FittedAt(f.addresses, c, [], f.head.maxOsd, osd);
    FittedAt(f.weights, c, 0, f.head.maxOsd, osd);
  }

  lemma AffinityOf(f: Flat, c: Change, osd: nat)
    requires Vectors(f) && osd < NextSize(f, c)
    ensures var affinity := NextAffinity(f.affinity, f.states, c, NextSize(f, c));
            && (affinity == [] <==> f.affinity == [] && c.newAffinity == map[])
            && (affinity != [] ==>
                  && osd < |affinity|
                  && affinity[osd] == (if DestroyedBy(Entry(f.states, osd, 0), c, osd) then 0x1_0000
                                       else if osd in c.newAffinity then c.newAffinity[osd]
                                       else Entry(f.affinity, osd, 0x1_0000)))
  {
    hide DestroyedBy;
    FittedAt(f.states, c, 0, f.head.maxOsd, osd);
    if f.affinity != [] { FittedAt(f.affinity, c, 0x1_0000, f.head.maxOsd, osd); }
  }

  /** A booted OSD exists, is up, is not stopping, and has its new address; its other marks stay
      unless it is also flipped or weighed. */
  lemma BootedOsd(f: Flat, c: Change, names: map<string, int>, osd: nat)
    requires Vectors(f) && c.newFlags < 0x1_0000_0000 && osd < NextSize(f, c) && osd in c.newUp
    ensures var n := Next(f, c, names);
            && osd < |n.states| && osd < |n.addresses|
            && n.states[osd] & 0x1 != 0 && n.states[osd] & 0x2 != 0 && n.states[osd] & 0x1000 == 0
            && n.addresses[osd] == c.newUp[osd]
            && (osd !in c.newState && osd !in c.newWeight ==>
                  n.states[osd] & 0xFFFF_EFFC == Entry(f.states, osd, 0) & 0xFFFF_EFFC)
  {
    hide NextState, DestroyedBy, Next;
    EntriesOf(f, c, names, osd);
    BootedState(Entry(f.states, osd, 0), c, osd);
  }

  /** An OSD whose state is flipped and that is not booted: removed, it has no state, no address and
      full affinity; otherwise exactly the bits asked for differ, beside the marks of having been put
      out or being new, which a weight clears. */
  lemma FlippedOsd(f: Flat, c: Change, names: map<string, int>, osd: nat)
    requires Vectors(f) && c.newFlags < 0x1_0000_0000 && osd < NextSize(f, c) && osd in c.newState && osd !in c.newUp
    ensures var n := Next(f, c, names);
            && osd < |n.states| && osd < |n.addresses|
            && (Removed(f, c, osd) ==> n.states[osd] == 0 && n.addresses[osd] == [])
            && (Removed(f, c, osd) && n.affinity != [] ==> osd < |n.affinity| && n.affinity[osd] == 0x1_0000)
            && (!Removed(f, c, osd) ==>
                  && n.addresses[osd] == Entry(f.addresses, osd, [])
                  && DiffersBy(n.states[osd], Cleared(Entry(f.states, osd, 0), c, osd), Asked(c, osd)))
  {
    hide NextState, DestroyedBy, NextAffinity, NextStates, NextWeights, NextAddresses, Asked, DiffersBy, Cleared;
    var state := Entry(f.states, osd, 0);
    EntriesOf(f, c, names, osd);
    AffinityOf(f, c, osd);
    RemovedState(state, c, osd);
    FlippedState(state, c, osd);
  }

  /** An OSD that is neither flipped nor booted keeps its state, but for the two marks that a weight
      clears, and its address. */
  lemma QuietOsd(f: Flat, c: Change, names: map<string, int>, osd: nat)
    requires Vectors(f) && c.newFlags < 0x1_0000_0000 && osd < NextSize(f, c)
    requires osd !in c.newState && osd !in c.newUp
    ensures var n := Next(f, c, names);
            && osd < |n.states| && osd < |n.addresses| && n.addresses[osd] == Entry(f.addresses, osd, [])
            && (if osd in c.newWeight && c.newWeight[osd] != 0
                then Brought(n.states[osd], Entry(f.states, osd, 0))
                else n.states[osd] == Entry(f.states, osd, 0))
  {
    hide NextState, DestroyedBy, Next, Brought;
    EntriesOf(f, c, names, osd);
    RemovedState(Entry(f.states, osd, 0), c, osd);
    QuietState(Entry(f.states, osd, 0), c, osd);
  }

  /** Weights and affinities: the update's, or what was there, or the default of a longer vector. */
  lemma WeighedOsd(f: Flat, c: Change, names: map<string, int>, osd: nat)
    requires Vectors(f) && c.newFlags < 0x1_0000_0000 && osd < NextSize(f, c)
    ensures var n := Next(f, c, names);
            && osd < |n.weights|
            && n.weights[osd] == (if osd in c.newWeight then c.newWeight[osd] else Entry(f.weights, osd, 0))
            && (n.affinity == [] <==> f.affinity == [] && c.newAffinity == map[])
            && (n.affinity != [] && !Removed(f, c, osd) ==>
                  && osd < |n.affinity|
                  && n.affinity[osd] == (if osd in c.newAffinity then c.newAffinity[osd]
                                         else Entry(f.affinity, osd, 0x1_0000)))
  {
    hide NextState, DestroyedBy, NextAffinity, NextStates, NextWeights, NextAddresses;
    EntriesOf(f, c, names, osd);
    AffinityOf(f, c, osd);
    RemovedState(Entry(f.states, osd, 0), c, osd);
  }

  // ---------------------------------------------------------------- tables

  /** What a key finds after changes where one value means deletion. */
  ghost predicate Looked<K, V>(before: map<K, V>, changes: map<K, V>, gone: V, after: map<K, V>, k: K) {
    && (k in after <==> if k in changes then changes[k] != gone else k in before)
    && (k in after ==> after[k] == if k in changes then changes[k] else before[k])
  }

  /** What a key finds after entries were put in and others then taken out. */
  ghost predicate PutThenCut<K, V>(before: map<K, V>, more: map<K, V>, cut: seq<K>, after: map<K, V>, k: K) {
    && (k in after <==> k !in cut && (k in more || k in before))
    && (k in after ==> after[k] == if k in more then more[k] else before[k])
  }

  /** Every placement group finds in each table what the update says about it, or what was there. */
  lemma TablesOf(f: Flat, c: Change, names: map<string, int>, pg: Pg)
    requires c.newFlags < 0x1_0000_0000
    ensures var n := Next(f, c, names);
            && Looked(f.pgTemp, c.newPgTemp, [], n.pgTemp, pg)
            && Looked(f.primaryTemp, c.newPrimaryTemp, -1, n.primaryTemp, pg)
            && PutThenCut(f.upmap, c.newUpmap, c.oldUpmap, n.upmap, pg)
            && PutThenCut(f.upmapItems, c.newUpmapItems, c.oldUpmapItems, n.upmapItems, pg)
            && PutThenCut(f.upmapPrimary, c.newUpmapPrimary, c.oldUpmapPrimary, n.upmapPrimary, pg)
  {
    hide NextHeader, NextPools, NextStates, NextWeights, NextAffinity, NextAddresses, Looked, PutThenCut;
    ChangedLooked(f.pgTemp, c.newPgTemp, [], pg);
    ChangedLooked(f.primaryTemp, c.newPrimaryTemp, -1, pg);
    MergedCut(f.upmap, c.newUpmap, c.oldUpmap, pg);
    MergedCut(f.upmapItems, c.newUpmapItems, c.oldUpmapItems, pg);
    MergedCut(f.upmapPrimary, c.newUpmapPrimary, c.oldUpmapPrimary, pg);
  }

  lemma ChangedLooked<V>(m: map<Pg, V>, changes: map<Pg, V>, gone: V, pg: Pg)
    ensures Looked(m, changes, gone, Changed(m, changes, gone), pg)
  {
  }

  lemma MergedCut<K, V>(m: map<K, V>, more: map<K, V>, cut: seq<K>, k: K)
    ensures PutThenCut(m, more, cut, Without(Merged(m, more), cut), k)
  {
  }

  /** Profiles are taken out first and put in then. */
  lemma ProfilesOf(f: Flat, c: Change, names: map<string, int>, profile: string)
    requires c.newFlags < 0x1_0000_0000
    ensures var n := Next(f, c, names);
            && (profile in n.profiles <==>
                  profile in c.newProfiles || (profile in f.profiles && profile !in c.oldProfiles))
            && (profile in n.profiles ==>
                  n.profiles[profile] == if profile in c.newProfiles then c.newProfiles[profile]
                      else f.profiles[profile])
  {
    hide NextHeader, NextPools, NextStates, NextWeights, NextAffinity, NextAddresses;
  }

  /** A pool is there if it was or is new and is not removed; it has the settings of the update if
      that has it, and its new name, or its old one. */
  lemma PoolsOf(f: Flat, c: Change, names: map<string, int>, id: int)
    requires Decoded(c)
    ensures var n := Next(f, c, names);
            && (id in n.pools <==> id !in c.oldPools && (id in f.pools || id in c.newPools))
            && (id in n.pools ==>
                  && n.pools[id].settings ==
                      (if id in c.newPools then c.newPools[id].settings else f.pools[id].settings)
                  && n.pools[id].name == (if id in c.newPoolNames then c.newPoolNames[id]
                                          else if id in f.pools then f.pools[id].name else ""))
  {
    hide NextHeader, NextStates, NextWeights, NextAffinity, NextAddresses;
  }

  /** The header: one epoch on, what the update sets, and what was there otherwise. The identity and
      the time of creation never change; the snapshots removed and purged are those of this update. */
  lemma HeaderOf(f: Flat, c: Change, names: map<string, int>)
    requires Fits(f, c) && c.newFlags < 0x1_0000_0000
    ensures var h, n := f.head, Next(f, c, names).head;
            && n.fsid == h.fsid == c.fsid && n.created == h.created && n.epoch == (h.epoch + 1) % 0x1_0000_0000
            && n.modified == c.modified && n.crc == c.fullCrc && !n.crcVerified && n.applied
            && n.poolMax == (if c.newPoolMax == -1 then h.poolMax else c.newPoolMax)
            && n.flags == (if c.newFlags < 0 then h.flags else c.newFlags)
            && n.maxOsd == (if c.newMaxOsd < 0 then h.maxOsd else c.newMaxOsd)
            && n.lastUp == (if c.newLastUp == 0 then h.lastUp else c.newLastUp)
            && n.lastIn == (if c.newLastIn == 0 then h.lastIn else c.newLastIn)
            && n.removedSnaps == c.newRemovedSnaps && n.purgedSnaps == c.newPurgedSnaps
            && (c.crushData == [] ==> n.crushData == h.crushData && n.crushVersion == h.crushVersion)
            && (c.crushData != [] ==>
                  n.crushData == c.crushData && n.crushVersion == (h.crushVersion + 1) % 0x1_0000_0000)
  {
    hide NextPools, NextStates, NextWeights, NextAffinity, NextAddresses, AllNamed, OsdsKnown, RenamesKnown;
  }

  /** The name that a pool of either has in the end. */
  function FinalName(f: Flat, c: Change, id: int): string {
    if id in c.newPoolNames then c.newPoolNames[id] else if id in f.pools then f.pools[id].name else ""
  }

  lemma NamedIs(f: Flat, c: Change)
    requires Decoded(c)
    ensures AllNamed(NextPools(f.pools, c)) <==>
            forall id :: (id in f.pools || id in c.newPools) && id !in c.oldPools ==> FinalName(f, c, id) != ""
  {
    hide NextHeader, NextPools, NextStates, NextWeights, NextAffinity, NextAddresses;
    var next := NextPools(f.pools, c);
    assert Next(f, c, map[]).pools == next;
    forall id
      ensures id in next <==> (id in f.pools || id in c.newPools) && id !in c.oldPools
      ensures id in next ==> next[id].name == FinalName(f, c, id)
    {
      PoolsOf(f, c, map[], id);
    }
  }

  /** An update fits exactly the map before it, of the same cluster, if it renames only pools that are there,
      speaks only of OSDs that are there afterwards, and leaves no pool without a name. */
  lemma FitsIs(f: Flat, c: Change)
    requires Decoded(c)
    ensures Fits(f, c) <==>
            var size := if c.newMaxOsd < 0 then f.head.maxOsd else c.newMaxOsd;
            && c.fsid == f.head.fsid && c.epoch == (f.head.epoch + 1) % 0x1_0000_0000
            && (forall id :: id in c.newPoolNames ==> id in f.pools || id in c.newPools)
            && (forall osd :: osd in c.newWeight || osd in c.newAffinity || osd in c.newState || osd in c.newUp ==>
                  0 <= osd < size)
            && (forall id :: (id in f.pools || id in c.newPools) && id !in c.oldPools ==> FinalName(f, c, id) != "")
  {
    hide NextPools, AllNamed, FinalName;
    NamedIs(f, c);
  }

  // ---------------------------------------------------------------- as the update leaves a map

  /** So it is in the map that an update without a full map leads to. */
  lemma AppliedOsd(decode: seq<int> -> Option<Flat>, f: Flat, c: Change, n: Flat, osd: nat)
    requires Good(f) && Decoded(c) && c.fullMap == [] && CopyOnWrite.Outcome(decode, f, c, Some(n))
    requires osd < n.head.maxOsd
    ensures osd < |n.states| && osd < |n.addresses| && osd < |n.weights|
    ensures osd in c.newUp ==>
              && n.states[osd] & 0x1 != 0 && n.states[osd] & 0x2 != 0 && n.states[osd] & 0x1000 == 0
              && n.addresses[osd] == c.newUp[osd]
    ensures osd in c.newState && osd !in c.newUp && Removed(f, c, osd) ==> n.states[osd] == 0 && n.addresses[osd] == []
    ensures osd in c.newState && osd !in c.newUp && !Removed(f, c, osd) && osd !in c.newWeight ==>
              DiffersBy(n.states[osd], Entry(f.states, osd, 0), Asked(c, osd))
    ensures osd !in c.newState && osd !in c.newUp && osd !in c.newWeight ==> n.states[osd] == Entry(f.states, osd, 0)
    ensures n.weights[osd] == if osd in c.newWeight then c.newWeight[osd] else Entry(f.weights, osd, 0)
  {
    hide NextPools, NextStates, NextWeights, NextAffinity, NextAddresses, Bijective, Fits, Removed, Asked, DiffersBy;
    assert n == Next(f, c, n.names);
    WeighedOsd(f, c, n.names, osd);
    if osd in c.newUp { BootedOsd(f, c, n.names, osd); }
    else if osd in c.newState { FlippedOsd(f, c, n.names, osd); }
    else { QuietOsd(f, c, n.names, osd); }
  }
}
