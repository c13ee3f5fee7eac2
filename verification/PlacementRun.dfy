/** The placement pipeline as it runs, from an object's hash to the OSDs that serve it. */
module PlacementRun {
  import PlacementFacts
  import opened Straw2
  import opened Placement
  import CrushGraph
  import CrushSearch
  import CrushRules
  import ShardOrder
  import StableMod

  method CheckWeightless(s: Snapshot, osds: seq<int>) returns (found: bool)
    ensures found == AnyWeightless(s, osds)
  {
    var i := 0;
    while i < |osds|
      invariant 0 <= i <= |osds| && forall j :: 0 <= j < i ==> !Weightless(s, osds[j])
    {
      if Weightless(s, osds[i]) { return true; }
      i := i + 1;
    }
    return false;
  }

  /** One scan that looks for the target and remembers the first source. */
  method ApplyRemap(s: Snapshot, osds: seq<int>, remap: Remap) returns (result: seq<int>)
    ensures result == Remapped(s, osds, remap)
  {
    var position := -1;
    var i := 0;
    while i < |osds|
      invariant 0 <= i <= |osds| && remap.target !in osds[..i]
      invariant position < 0 ==> Weightless(s, remap.target) || remap.source !in osds[..i]
      invariant position >= 0 ==>
                  position < i && osds[position] == remap.source && remap.source !in osds[..position]
                  && !Weightless(s, remap.target)
    {
      if osds[i] == remap.target { return osds; }
      if osds[i] == remap.source && position < 0 && !Weightless(s, remap.target) { position := i; }
      i := i + 1;
    }
    assert osds[..i] == osds;
    if position >= 0 {
      FirstIsUnique(osds, remap.source, position);
      return osds[position := remap.target];
    }
    return osds;
  }

  lemma {:induction false} FirstIsUnique(osds: seq<int>, osd: int, i: nat)
    requires i < |osds| && osds[i] == osd && osd !in osds[..i]
    ensures IndexOf(osds, osd) == i
  {
    if i > 0 {
      assert osds[..i] == [osds[0]] + osds[1..][..i - 1];
      FirstIsUnique(osds[1..], osd, i - 1);
    }
  }

  method ApplyUpmap(s: Snapshot, pg: Pg, source: seq<int>) returns (result: seq<int>)
    ensures result == Upmapped(s, pg, source)
  {
    hide AnyWeightless, IndexOf;
    result := source;
    if pg in s.upmap {
      var bad := CheckWeightless(s, s.upmap[pg]);
      if bad { return; }
      result := s.upmap[pg];
    }
    var remaps := if pg in s.upmapItems then s.upmapItems[pg] else [];
    ghost var goal := RemappedAll(s, result, remaps);
    var i := 0;
    while i < |remaps|
      invariant 0 <= i <= |remaps| && goal == RemappedAll(s, result, remaps[i..])
    {
      assert remaps[i..][0] == remaps[i] && remaps[i..][1..] == remaps[i + 1..];
      result := ApplyRemap(s, result, remaps[i]);
      i := i + 1;
    }
    result := BringForward(s, pg, result);
  }

  method BringForward(s: Snapshot, pg: Pg, osds: seq<int>) returns (result: seq<int>)
    ensures result == Fronted(s, pg, osds)
  {
    if pg !in s.upmapPrimary { return osds; }
    var primary := s.upmapPrimary[pg];
    if primary == NONE || primary < 0 || primary >= |s.weights| || s.weights[primary] == 0 { return osds; }
    var i := 1;
    while i < |osds|
      invariant 1 <= i && (|osds| > 0 ==> i <= |osds| && primary !in osds[1..i])
    {
      if osds[i] == primary {
        assert osds[1..][..i - 1] == osds[1..i];
        FirstIsUnique(osds[1..], primary, i - 1);
        return Swapped(osds, i);
      }
      i := i + 1;
    }
    assert |osds| > 0 ==> osds[1..i] == osds[1..];
    return osds;
  }

  method FilterUp(s: Snapshot, pool: Pool, source: seq<int>) returns (result: seq<int>)
    ensures result == UpSet(s, pool, source)
  {
    hide IsUp;
    var i := 0;
    if Replicated(pool) {
      result := [];
      while i < |source|
        invariant 0 <= i <= |source| && result == OnlyUp(s, source[..i])
      {
        assert source[..i + 1][..i] == source[..i];
        if IsUp(s, source[i]) { result := result + [source[i]]; }
        i := i + 1;
      }
      assert source[..i] == source;
      return;
    }
    result := source;
    while i < |source|
      invariant 0 <= i <= |source| == |result|
      invariant forall j :: 0 <= j < i ==> result[j] == if IsUp(s, source[j]) then source[j] else NONE
      invariant result[i..] == source[i..]
    {
      assert result[i] == result[i..][0] == source[i];
      if !IsUp(s, source[i]) { result := result[i := NONE]; }
      i := i + 1;
    }
  }

  method FirstOsd(osds: seq<int>) returns (osd: int)
    ensures osd == First(osds)
  {
    var i := 0;
    while i < |osds|
      invariant 0 <= i <= |osds| && First(osds) == First(osds[i..])
    {
      if osds[i] != NONE { return osds[i]; }
      assert osds[i..][1..] == osds[i + 1..];
      i := i + 1;
    }
    return -1;
  }

  /** Moves the OSD that accepts being primary to the front, in place. */
  method ApplyAffinity(s: Snapshot, m: Mixer, pool: Pool, seed: Word, osds: array<int>,
                       primary: int) returns (chosen: int)
    modifies osds
    ensures (osds[..], chosen) == Affine(s, m, pool, seed, old(osds[..]), primary)
  {
    hide Declines, Eligible;
    ghost var before := osds[..];
    if |s.affinity| == 0 { return primary; }
    var position := -1;
    var i := 0;
    while i < osds.Length
      invariant 0 <= i <= osds.Length && -1 <= position < osds.Length && osds[..] == before
      invariant Volunteer(s, m, seed, before, 0, -1) == Volunteer(s, m, seed, before, i, position)
    {
      assert osds[i] == before[i];
      if Eligible(s, osds[i]) {
        var declines := Declines(s, m, seed, osds[i]);
        if declines {
          if position < 0 { position := i; }
        } else {
          position := i;
          break;
        }
      }
      i := i + 1;
    }
    assert position == Volunteer(s, m, seed, before, 0, -1);
    if position < 0 { return primary; }
    chosen := osds[position];
    if Replicated(pool) && position > 0 { Rotate(osds, position); }
    assert position == 0 ==> Rotated(before, 0) == before;
  }

  /** Shifts the entries before `position` up by one and puts its entry in front. */
  method Rotate(osds: array<int>, position: nat)
    requires position < osds.Length
    modifies osds
    ensures osds[..] == Rotated(old(osds[..]), position)
  {
    var front := osds[position];
    var i := position;
    while i > 0
      invariant 0 <= i <= position
      invariant forall j :: 0 <= j < i || position < j < osds.Length ==> osds[j] == old(osds[j])
      invariant forall j :: i < j <= position ==> osds[j] == old(osds[j - 1])
    {
      osds[i] := osds[i - 1];
      i := i - 1;
    }
    osds[0] := front;
  }

  method CheckSet(s: Snapshot, osds: seq<int>, duplicates: bool) returns (ok: bool)
    ensures ok == SetOk(s, osds, duplicates)
  {
    hide Exists;
    var seen := {};
    var i := 0;
    while i < |osds|
      invariant 0 <= i <= |osds|
      invariant forall j :: 0 <= j < i ==> osds[j] == NONE || Exists(s, osds[j])
      invariant forall osd :: osd in seen <==> osd in osds[..i] && osd != NONE
      invariant !duplicates ==> forall j, k :: 0 <= j < k < i ==> osds[j] != osds[k] || osds[j] == NONE
    {
      assert osds[..i + 1] == osds[..i] + [osds[i]];
      if osds[i] != NONE {
        if !Exists(s, osds[i]) { return false; }
        if osds[i] in seen && !duplicates {
          ghost var j :| 0 <= j < i && osds[..i][j] == osds[i];
          assert osds[j] == osds[i];
          return false;
        }
        seen := seen + {osds[i]};
      }
      i := i + 1;
    }
    return true;
  }

  method CheckUpmap(s: Snapshot, pg: Pg) returns (ok: bool)
    ensures ok == UpmapOk(s, pg)
  {
    if pg in s.upmap {
      ok := CheckSet(s, s.upmap[pg], false);
      if !ok { return; }
    }
    if pg in s.upmapItems {
      var i := 0;
      while i < |s.upmapItems[pg]|
        invariant 0 <= i <= |s.upmapItems[pg]|
        invariant forall j :: 0 <= j < i ==> s.upmapItems[pg][j].target == NONE || Exists(s, s.upmapItems[pg][j].target)
      {
        var target := s.upmapItems[pg][i].target;
        if target != NONE && !Exists(s, target) { return false; }
        i := i + 1;
      }
    }
    return true;
  }

  method FindTemp(s: Snapshot, pool: Pool, pg: Pg) returns (r: Result<(seq<int>, int)>)
    ensures r == Temp(s, pool, pg)
  {
    hide UpSet, SetOk, First, ShardOrder.Undo;
    var primary := if pg in s.primaryTemp then s.primaryTemp[pg] else -1;
    if pg !in s.pgTemp { return Ok(([], primary)); }
    var ok := CheckSet(s, s.pgTemp[pg], Erasure(pool));
    if !ok { return Unsupported; }
    var osds := FilterUp(s, pool, s.pgTemp[pg]);
    if primary == -1 { primary := FirstOsd(osds); }
    if Erasure(pool) && pool.optimized {
      var valid := CheckShards(pool);
      if |osds| != pool.size || !valid { return Unsupported; }
      osds := ShardOrder.UndoOrder(Marked(pool), osds);
    }
    return Ok((osds, primary));
  }

  method CheckShards(pool: Pool) returns (ok: bool)
    ensures ok == ShardsOk(pool)
  {
    var shard := pool.size;
    while shard < 128
      invariant pool.size <= shard && forall i :: pool.size <= i < shard && i < 128 ==> i !in pool.nonprimary
    {
      if shard in pool.nonprimary { return false; }
      shard := shard + 1;
    }
    return true;
  }

  /** The scan for the primary, in primary-first order when that is in force. */
  method FindShard(s: Snapshot, pool: Pool, pg: Pg, acting: seq<int>, primary: int) returns (shard: int)
    requires Erasure(pool) && pg in s.pgTemp && pool.optimized ==> |acting| == pool.size
    ensures shard == ShardOf(s, pool, pg, acting, primary)
  {
    hide ShardOrder.PrimaryFirst, ShardOrder.UndoIndex, IndexOf;
    if !Erasure(pool) { return -1; }
    var order := acting;
    var reordered := pg in s.pgTemp && pool.optimized;
    OrderedSize(Marked(pool), acting);
    if reordered { order := ShardOrder.Reorder(Marked(pool), acting); }
    var i := 0;
    while i < |order|
      invariant 0 <= i <= |order| && primary !in order[..i]
    {
      if order[i] == primary {
        FirstIsUnique(order, primary, i);
        if reordered {
          var canonical := ShardOrder.Canonical(pool.size);
          OrderedSize(Marked(pool), canonical);
          var first := ShardOrder.Reorder(Marked(pool), canonical);
          IndexDefinition(Marked(pool), pool.size, i);
          return first[i];
        }
        return i;
      }
      i := i + 1;
    }
    assert order[..i] == order;
    NotFound(order, primary);
    return -1;
  }

  lemma IndexDefinition(nonprimary: set<nat>, size: nat, position: nat)
    requires position < size
    ensures |ShardOrder.PrimaryFirst(nonprimary, ShardOrder.Canonical(size))| == size
    ensures ShardOrder.UndoIndex(nonprimary, size, position) ==
              ShardOrder.PrimaryFirst(nonprimary, ShardOrder.Canonical(size))[position]
  {
    OrderedSize(nonprimary, ShardOrder.Canonical(size));
  }

  lemma NotFound(osds: seq<int>, osd: int)
    requires osd !in osds
    ensures IndexOf(osds, osd) == |osds|
  {
  }

  /** The rewriting of a raw placement, stage after stage. */
  method Rewrite(s: Snapshot, m: Mixer, pool: Pool, pg: Pg, seed: Word, raw: seq<int>) returns (r: Result<Served>)
    requires pool.size > 0
    ensures r == Finish(s, m, pool, pg, seed, raw)
  {
    hide UpmapOk, Upmapped, UpSet, Affine, First, Shard, ShardOrder.Undo;
    var ok := CheckUpmap(s, pg);
    if !ok { return Unsupported; }
    var mapped := ApplyUpmap(s, pg, raw);
    mapped := FilterUp(s, pool, mapped);
    var first := FirstOsd(mapped);
    var osds := new int[|mapped|](i requires 0 <= i < |mapped| => mapped[i]);
    assert osds[..] == mapped;
    var upPrimary := ApplyAffinity(s, m, pool, seed, osds, first);
    var up := osds[..];
    var temp := FindTemp(s, pool, pg);
    if temp.Unsupported? { return Unsupported; }
    var (acting, actingPrimary) := temp.value;
    if |acting| == 0 {
      acting := up;
      if actingPrimary == -1 { actingPrimary := upPrimary; }
    }
    if actingPrimary != -1 && actingPrimary !in acting { return Unsupported; }
    var shard := FindShard(s, pool, pg, acting, actingPrimary);
    if shard > 127 { return Unsupported; }
    return Ok(Served(raw, up, upPrimary, acting, actingPrimary, shard >= 0, if shard >= 0 then shard else 0));
  }

  // ---------------------------------------------------------------- from a hash

  /** The group an object belongs to and the seed its group is placed by. */
  datatype Mapped = Mapped(pg: Pg, seed: Word)

  predicate Hashable(s: Snapshot, poolId: int) {
    && poolId >= 0 && poolId in s.pools
    && s.pools[poolId].objectHash == RJENKINS && s.pools[poolId].hashesPool
    && 0 < s.pools[poolId].placementGroups <= s.pools[poolId].groups
  }

  function SeedOf(m: Mixer, placementGroup: nat, poolId: int): Word {
    m.pair(placementGroup % 0x1_0000_0000, AsWord(poolId))
  }

  function MapHash(s: Snapshot, m: Mixer, poolId: int, hash: Word): Result<Mapped> {
    if !Hashable(s, poolId) then Unsupported
    else
      var pool := s.pools[poolId];
      Ok(Mapped(Pg(poolId, StableMod.Mod(hash, pool.groups)),
                SeedOf(m, StableMod.Mod(hash, pool.placementGroups), poolId)))
  }

  method MapRawHash(s: Snapshot, m: Mixer, poolId: int, hash: Word) returns (r: Result<Mapped>)
    requires poolId in s.pools ==>
               s.pools[poolId].groups < StableMod.MODULUS && s.pools[poolId].placementGroups < StableMod.MODULUS
    ensures r == MapHash(s, m, poolId, hash)
  {
    if poolId < 0 || poolId !in s.pools { return Unsupported; }
    var pool := s.pools[poolId];
    if pool.objectHash != RJENKINS || !pool.hashesPool { return Unsupported; }
    if pool.groups == 0 || pool.placementGroups == 0 || pool.placementGroups > pool.groups { return Unsupported; }
    var group := StableMod.StableMod(hash, pool.groups);
    var placementGroup := StableMod.StableMod(hash, pool.placementGroups);
    return Ok(Mapped(Pg(poolId, group), SeedOf(m, placementGroup, poolId)));
  }

  /** Two objects in one placement group are placed by one seed, so by everything after it too. */
  lemma SameGroupSamePlacement(s: Snapshot, m: Mixer, poolId: int, a: Word, b: Word)
    requires MapHash(s, m, poolId, a).Ok? && MapHash(s, m, poolId, b).Ok?
    requires MapHash(s, m, poolId, a).value.pg == MapHash(s, m, poolId, b).value.pg
    ensures MapHash(s, m, poolId, a) == MapHash(s, m, poolId, b)
  {
    hide StableMod.Mod, SeedOf;
    StableMod.SameGroupSameSeed(a, b, s.pools[poolId].placementGroups, s.pools[poolId].groups);
  }

  // ---------------------------------------------------------------- the whole

  ghost predicate ServedGood(s: Snapshot, pool: Pool, served: Served) {
    && (served.actingPrimary == -1 || served.actingPrimary in served.acting)
    && (Replicated(pool) ==>
          && CrushSearch.Distinct(served.up) && AllUp(s, served.up) && CrushSearch.Distinct(served.acting)
             && AllUp(s, served.acting)
          && (if served.up == [] then served.upPrimary == -1 else served.up[0] == served.upPrimary))
    && (Erasure(pool) ==>
          && DistinctSet(served.up) && UpOrNone(s, served.up) && UpOrNone(s, served.acting)
          && (served.sharded <==> served.actingPrimary != -1)
          && (served.sharded ==>
              0 <= served.primaryShard < |served.acting| && served.acting[served.primaryShard] == served.actingPrimary))
  }

  /** Whatever the CRUSH rule, its placement names no device twice. */
  lemma PlacedDistinct(w: CrushSearch.World, rule: CrushRules.Rule, seed: Word, replicas: nat, items: seq<int>)
    requires CrushRules.PlacedGood(w, rule, seed, replicas, items)
    ensures DistinctSet(items)
  {
  }

  /** The placement of one group: CRUSH, then the rewriting, with every promise kept. */
  method PlaceMapped(s: Snapshot, c: CrushRules.CrushMap, m: Mixer, poolId: int, at: Mapped) returns (r: Result<Served>)
    requires Sized(s) && poolId in s.pools
    ensures r.Ok? ==> ServedGood(s, s.pools[poolId], r.value)
    ensures r.Ok? && Replicated(s.pools[poolId]) ==> PlacementFacts.ServedBy(s, at.pg, r.value)
    ensures var pool, w := s.pools[poolId], CrushSearch.World(c.graph, s.weights, m);
            if (Replicated(pool) || Erasure(pool)) && CrushRules.Placeable(c, pool.rule, pool.size) then
              && CrushGraph.Usable(w.g) && pool.size > 0
              && var placed := CrushRules.RunSteps(w, c.tunables, at.seed, pool.size, c.rules[pool.rule].steps,
                                                   CrushRules.Start(c.tunables));
              placed.Devices? && r == Finish(s, m, pool, at.pg, at.seed, placed.items)
            else r == Unsupported
  {
    hide Finish, PlacementFacts.ServedBy, CrushRules.PlacedGood, CrushRules.Placeable, CrushRules.RunSteps,
        CrushSearch.Distinct, DistinctSet,
        AllUp, UpOrNone;
    var pool := s.pools[poolId];
    if !Replicated(pool) && !Erasure(pool) { return Unsupported; }
    PlaceableRule(c, pool.rule, pool.size);
    if pool.size == 0 { return Unsupported; }
    var placed := CrushRules.Place(c, m, pool.rule, at.seed, pool.size, s.weights);
    if placed.Invalid? { return Unsupported; }
    var raw := placed.items;
    PlacedDistinct(CrushSearch.World(c.graph, s.weights, m), c.rules[pool.rule], at.seed, pool.size, raw);
    r := Rewrite(s, m, pool, at.pg, at.seed, raw);
    if r.Ok? {
      if Replicated(pool) {
        ReplicatedServed(s, m, pool, at.pg, at.seed, raw);
        PlacementFacts.ActingReplicated(s, m, pool, at.pg, at.seed, raw);
      } else {
        ErasureServed(s, m, pool, at.pg, at.seed, raw);
      }
    }
  }

  lemma PlaceableRule(c: CrushRules.CrushMap, rule: nat, replicas: int)
    ensures CrushRules.Placeable(c, rule, replicas) ==> rule in c.rules && replicas > 0
  {
  }
}
