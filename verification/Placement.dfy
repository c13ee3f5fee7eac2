/** From an object's hash to the OSDs that serve it: the rewriting of a raw CRUSH
    placement by upmaps, OSD states, primary affinity and temporary mappings. */
module Placement {
  import opened Straw2
  import CrushSearch
  import CrushRules
  import ShardOrder

  const NONE := CrushSearch.NONE
  const FULL_AFFINITY := 0x1_0000
  const RJENKINS := 2

  datatype Pg = Pg(pool: int, seed: nat)

  datatype Pool = Pool(kind: nat, size: nat, rule: nat, objectHash: nat, hashesPool: bool,
                       groups: nat, placementGroups: nat, optimized: bool, nonprimary: set<nat>)

  datatype Osd = Osd(exists_: bool, up: bool)

  datatype Remap = Remap(source: int, target: int)

  datatype Snapshot = Snapshot(pools: map<int, Pool>, osds: seq<Osd>, weights: seq<Word>, affinity: seq<Word>,
                               upmap: map<Pg, seq<int>>, upmapItems: map<Pg, seq<Remap>>, upmapPrimary: map<Pg, int>,
                               pgTemp: map<Pg, seq<int>>, primaryTemp: map<Pg, int>)

  datatype Result<T> = Ok(value: T) | Unsupported

  datatype Served = Served(raw: seq<int>, up: seq<int>, upPrimary: int, acting: seq<int>, actingPrimary: int,
                           sharded: bool, primaryShard: int)

  /** OSD ids are signed 32-bit, so no OSD has the id of the empty marker. */
  ghost predicate Sized(s: Snapshot) { |s.osds| <= NONE }

  predicate Exists(s: Snapshot, osd: int) { 0 <= osd < |s.osds| && s.osds[osd].exists_ }

  predicate IsUp(s: Snapshot, osd: int) { Exists(s, osd) && s.osds[osd].up }

  predicate Replicated(pool: Pool) { pool.kind == CrushRules.REPLICATED }

  predicate Erasure(pool: Pool) { pool.kind == CrushRules.ERASURE }

  // ---------------------------------------------------------------- upmaps

  /** The OSD is in the weights with weight zero. */
  predicate Weightless(s: Snapshot, osd: int) { osd != NONE && 0 <= osd < |s.weights| && s.weights[osd] == 0 }

  function IndexOf(osds: seq<int>, osd: int): (i: nat)
    ensures i <= |osds| && (i < |osds| ==> osds[i] == osd) && osd !in osds[..i]
    ensures i == |osds| <==> osd !in osds
  {
    if osds == [] then 0 else if osds[0] == osd then 0 else
      var i := IndexOf(osds[1..], osd);
      assert osds[..i + 1] == [osds[0]] + osds[1..][..i];
      i + 1
  }

  /** Replaces the first occurrence of the source by the target, unless the target is there already. */
  function Remapped(s: Snapshot, osds: seq<int>, remap: Remap): (r: seq<int>)
    ensures |r| == |osds|
  {
    var i := IndexOf(osds, remap.source);
    if remap.target in osds || i == |osds| || Weightless(s, remap.target) then osds else osds[i := remap.target]
  }

  function RemappedAll(s: Snapshot, osds: seq<int>, remaps: seq<Remap>): (r: seq<int>)
    ensures |r| == |osds|
    decreases |remaps|
  {
    if remaps == [] then osds else RemappedAll(s, Remapped(s, osds, remaps[0]), remaps[1..])
  }

  function Swapped(osds: seq<int>, i: nat): (r: seq<int>)
    requires i < |osds|
  {
    osds[0 := osds[i]][i := osds[0]]
  }

  /** Brings a chosen primary with weight to the front. */
  function Fronted(s: Snapshot, pg: Pg, osds: seq<int>): (r: seq<int>)
    ensures |r| == |osds|
  {
    if pg !in s.upmapPrimary || |osds| == 0 then osds
    else
      var primary := s.upmapPrimary[pg];
      var i := IndexOf(osds[1..], primary);
      if primary == NONE || primary < 0 || primary >= |s.weights| || s.weights[primary] == 0
          || i == |osds| - 1 then osds
      else Swapped(osds, i + 1)
  }

  predicate AnyWeightless(s: Snapshot, osds: seq<int>) { exists i :: 0 <= i < |osds| && Weightless(s, osds[i]) }

  function Upmapped(s: Snapshot, pg: Pg, source: seq<int>): (r: seq<int>) {
    if pg in s.upmap && AnyWeightless(s, s.upmap[pg]) then source
    else
      var start := if pg in s.upmap then s.upmap[pg] else source;
      Fronted(s, pg, RemappedAll(s, start, if pg in s.upmapItems then s.upmapItems[pg] else []))
  }

  // ---------------------------------------------------------------- states and primaries

  function OnlyUp(s: Snapshot, osds: seq<int>): (r: seq<int>) {
    if osds == [] then [] else
      var n := |osds| - 1;
      OnlyUp(s, osds[..n]) + (if IsUp(s, osds[n]) then [osds[n]] else [])
  }

  /** Replicated sets shrink to the OSDs that are up; erasure-coded sets keep their positions. */
  function UpSet(s: Snapshot, pool: Pool, osds: seq<int>): (r: seq<int>) {
    if Replicated(pool) then OnlyUp(s, osds) else Holed(s, osds)
  }

  function Holed(s: Snapshot, osds: seq<int>): (r: seq<int>) {
    seq(|osds|, i requires 0 <= i < |osds| => if IsUp(s, osds[i]) then osds[i] else NONE)
  }

  function First(osds: seq<int>): (osd: int)
    ensures osd == -1 || osd in osds
  {
    if osds == [] then -1 else if osds[0] != NONE then osds[0] else First(osds[1..])
  }

  predicate Eligible(s: Snapshot, osd: int) { osd != NONE && 0 <= osd < |s.affinity| }

  /** The OSD's affinity loses its draw. */
  predicate Declines(s: Snapshot, m: Mixer, seed: Word, osd: int)
    requires Eligible(s, osd)
  {
    s.affinity[osd] < FULL_AFFINITY && m.pair(seed, AsWord(osd)) / 0x1_0000 >= s.affinity[osd]
  }

  /** The first eligible OSD that does not decline, or the first that does, or none. */
  function Volunteer(s: Snapshot, m: Mixer, seed: Word, osds: seq<int>, i: nat, fallback: int): (p: int)
    requires i <= |osds| && -1 <= fallback < |osds|
    ensures -1 <= p < |osds|
    decreases |osds| - i
  {
    if i == |osds| then fallback
    else if !Eligible(s, osds[i]) then Volunteer(s, m, seed, osds, i + 1, fallback)
    else if Declines(s, m, seed, osds[i]) then Volunteer(s, m, seed, osds, i + 1, if fallback < 0 then i else fallback)
    else i
  }

  function Rotated(osds: seq<int>, p: nat): (r: seq<int>)
    requires p < |osds|
    ensures |r| == |osds|
  {
    [osds[p]] + osds[..p] + osds[p + 1..]
  }

  /** The set and its primary after primary affinity. */
  function Affine(s: Snapshot, m: Mixer, pool: Pool, seed: Word, osds: seq<int>, primary: int): (r: (seq<int>, int)) {
    var p := if |s.affinity| == 0 then -1 else Volunteer(s, m, seed, osds, 0, -1);
    if p < 0 then (osds, primary) else (if Replicated(pool) then Rotated(osds, p) else osds, osds[p])
  }

  // ---------------------------------------------------------------- temporary mappings

  predicate DistinctSet(osds: seq<int>) {
    forall i, j :: 0 <= i < j < |osds| ==> osds[i] != osds[j] || osds[i] == NONE
  }

  predicate AllExist(s: Snapshot, osds: seq<int>) {
    forall i :: 0 <= i < |osds| ==> osds[i] == NONE || Exists(s, osds[i])
  }

  predicate SetOk(s: Snapshot, osds: seq<int>, duplicates: bool) {
    AllExist(s, osds) && (duplicates || DistinctSet(osds))
  }

  predicate UpmapOk(s: Snapshot, pg: Pg) {
    && (pg in s.upmap ==> SetOk(s, s.upmap[pg], false))
    && (pg in s.upmapItems ==> forall i :: 0 <= i < |s.upmapItems[pg]| ==>
          s.upmapItems[pg][i].target == NONE || Exists(s, s.upmapItems[pg][i].target))
  }

  predicate ShardsOk(pool: Pool) { forall shard :: shard in pool.nonprimary ==> shard < pool.size || shard >= 128 }

  /** Shards beyond the bit set are never marked. */
  function Marked(pool: Pool): set<nat> { set shard | shard in pool.nonprimary && shard < 128 }

  /** The temporary set, empty when there is none, and its primary, -1 when there is none. */
  function Temp(s: Snapshot, pool: Pool, pg: Pg): (r: Result<(seq<int>, int)>) {
    var override := if pg in s.primaryTemp then s.primaryTemp[pg] else -1;
    if pg !in s.pgTemp then Ok(([], override))
    else if !SetOk(s, s.pgTemp[pg], Erasure(pool)) then Unsupported
    else
      var osds := UpSet(s, pool, s.pgTemp[pg]);
      var primary := if override == -1 then First(osds) else override;
      if Erasure(pool) && pool.optimized then
        if |osds| != pool.size || !ShardsOk(pool) then Unsupported
        else Ok((ShardOrder.Undo(Marked(pool), osds), primary))
      else Ok((osds, primary))
  }

  // ---------------------------------------------------------------- the whole pipeline

  /** The primary's shard: its position, found in primary-first order when that order is in force. */
  function Shard(pool: Pool, reordered: bool, acting: seq<int>, primary: int): (shard: int)
    requires reordered ==> |acting| == pool.size
  {
    if reordered then
      OrderedSize(Marked(pool), acting);
      var i := IndexOf(ShardOrder.PrimaryFirst(Marked(pool), acting), primary);
      if i == |acting| then -1 else ShardOrder.UndoIndex(Marked(pool), pool.size, i)
    else
      var i := IndexOf(acting, primary);
      if i == |acting| then -1 else i
  }

  lemma OrderedSize(nonprimary: set<nat>, s: seq<int>)
    ensures |ShardOrder.PrimaryFirst(nonprimary, s)| == |s|
  {
    ShardOrder.CountsAdd(nonprimary, |s|);
  }

  /** Only an erasure-coded pool has shards; a reordered temporary set has the pool's size. */
  function ShardOf(s: Snapshot, pool: Pool, pg: Pg, acting: seq<int>, primary: int): (shard: int)
    requires Erasure(pool) && pg in s.pgTemp && pool.optimized ==> |acting| == pool.size
  {
    if Erasure(pool) then Shard(pool, pg in s.pgTemp && pool.optimized, acting, primary) else -1
  }

  function Finish(s: Snapshot, m: Mixer, pool: Pool, pg: Pg, seed: Word, raw: seq<int>): (r: Result<Served>)
    requires pool.size > 0
  {
    if !UpmapOk(s, pg) then Unsupported
    else
      var mapped := UpSet(s, pool, Upmapped(s, pg, raw));
      var (up, upPrimary) := Affine(s, m, pool, seed, mapped, First(mapped));
      match Temp(s, pool, pg)
      case Unsupported => Unsupported
      case Ok((temp, override)) =>
        var acting := if temp == [] then up else temp;
        var actingPrimary := if temp == [] && override == -1 then upPrimary else override;
        if actingPrimary != -1 && actingPrimary !in acting then Unsupported
        else
          var shard := ShardOf(s, pool, pg, acting, actingPrimary);
          if shard > 127 then Unsupported
          else Ok(Served(raw, up, upPrimary, acting, actingPrimary, shard >= 0, if shard >= 0 then shard else 0))
  }

  // ---------------------------------------------------------------- what the pipeline promises

  ghost predicate AllUp(s: Snapshot, osds: seq<int>) { forall i :: 0 <= i < |osds| ==> IsUp(s, osds[i]) }

  ghost predicate UpOrNone(s: Snapshot, osds: seq<int>) {
    forall i :: 0 <= i < |osds| ==> osds[i] == NONE || IsUp(s, osds[i])
  }

  lemma {:induction false} RemappedAllDistinct(s: Snapshot, osds: seq<int>, remaps: seq<Remap>)
    requires DistinctSet(osds)
    ensures DistinctSet(RemappedAll(s, osds, remaps))
    decreases |remaps|
  {
    if remaps != [] { RemappedAllDistinct(s, Remapped(s, osds, remaps[0]), remaps[1..]); }
  }

  lemma FrontedDistinct(s: Snapshot, pg: Pg, osds: seq<int>)
    requires DistinctSet(osds)
    ensures DistinctSet(Fronted(s, pg, osds))
  {
    hide IndexOf;
  }

  /** No upmap puts an OSD into a placement twice. */
  lemma UpmappedDistinct(s: Snapshot, pg: Pg, raw: seq<int>)
    requires DistinctSet(raw) && UpmapOk(s, pg)
    ensures DistinctSet(Upmapped(s, pg, raw))
  {
    hide AnyWeightless, RemappedAll, Fronted, DistinctSet, AllExist;
    var start := if pg in s.upmap then s.upmap[pg] else raw;
    var remaps := if pg in s.upmapItems then s.upmapItems[pg] else [];
    RemappedAllDistinct(s, start, remaps);
    FrontedDistinct(s, pg, RemappedAll(s, start, remaps));
  }

  lemma {:induction false} OnlyUpGood(s: Snapshot, osds: seq<int>)
    requires Sized(s) && DistinctSet(osds)
    ensures var r := OnlyUp(s, osds);
            AllUp(s, r) && CrushSearch.Distinct(r) && (forall osd :: osd in r <==> osd in osds && IsUp(s, osd))
  {
    if osds != [] {
      var n := |osds| - 1;
      OnlyUpGood(s, osds[..n]);
      assert osds == osds[..n] + [osds[n]];
    }
  }

  lemma RotatedGood(s: Snapshot, osds: seq<int>, p: nat)
    requires p < |osds| && CrushSearch.Distinct(osds) && AllUp(s, osds)
    ensures CrushSearch.Distinct(Rotated(osds, p)) && AllUp(s, Rotated(osds, p))
    ensures forall osd :: osd in Rotated(osds, p) <==> osd in osds
  {
    assert osds == osds[..p] + [osds[p]] + osds[p + 1..];
  }

  /** Primary affinity picks the first eligible OSD that does not decline; if all decline, the first one. */
  lemma {:induction false} VolunteerIsFirst(s: Snapshot, m: Mixer, seed: Word, osds: seq<int>, i: nat, fallback: int)
    requires i <= |osds| && -1 <= fallback < i
    requires forall j :: 0 <= j < i && Eligible(s, osds[j]) ==> Declines(s, m, seed, osds[j]) && 0 <= fallback <= j
    requires fallback >= 0 ==> Eligible(s, osds[fallback])
    ensures var p := Volunteer(s, m, seed, osds, i, fallback);
            if p < 0 then forall j :: 0 <= j < |osds| ==> !Eligible(s, osds[j])
            else
              && Eligible(s, osds[p])
              && (if Declines(s, m, seed, osds[p])
                  then forall j :: 0 <= j < |osds| && Eligible(s, osds[j]) ==> Declines(s, m, seed, osds[j]) && p <= j
                  else forall j :: 0 <= j < p && Eligible(s, osds[j]) ==> Declines(s, m, seed, osds[j]))
    decreases |osds| - i
  {
    if i < |osds| {
      if !Eligible(s, osds[i]) {
        VolunteerIsFirst(s, m, seed, osds, i + 1, fallback);
      } else if Declines(s, m, seed, osds[i]) {
        VolunteerIsFirst(s, m, seed, osds, i + 1, if fallback < 0 then i else fallback);
      }
    }
  }

  /** A replicated up set after affinity: distinct OSDs that are up, led by the primary. */
  lemma UpGood(s: Snapshot, m: Mixer, pool: Pool, pg: Pg, seed: Word, raw: seq<int>)
    requires Sized(s) && Replicated(pool) && DistinctSet(raw) && UpmapOk(s, pg)
    ensures var mapped := UpSet(s, pool, Upmapped(s, pg, raw));
            var (up, primary) := Affine(s, m, pool, seed, mapped, First(mapped));
            && CrushSearch.Distinct(up) && AllUp(s, up)
            && (up == [] ==> primary == -1) && (up != [] ==> up[0] == primary)
  {
    hide Upmapped, OnlyUp, Volunteer;
    UpmappedDistinct(s, pg, raw);
    var mapped := OnlyUp(s, Upmapped(s, pg, raw));
    OnlyUpGood(s, Upmapped(s, pg, raw));
    var p := Volunteer(s, m, seed, mapped, 0, -1);
    if 0 <= p { RotatedGood(s, mapped, p); }
    if mapped != [] { assert IsUp(s, mapped[0]); }
  }

  /** Replicated placements: up and acting hold distinct OSDs that are up, up is led by its
      primary, and the acting primary acts. */
  lemma ReplicatedServed(s: Snapshot, m: Mixer, pool: Pool, pg: Pg, seed: Word, raw: seq<int>)
    requires Sized(s) && Replicated(pool) && pool.size > 0 && DistinctSet(raw) && Finish(s, m, pool, pg, seed, raw).Ok?
    ensures var served := Finish(s, m, pool, pg, seed, raw).value;
            && CrushSearch.Distinct(served.up) && AllUp(s, served.up)
            && (if served.up == [] then served.upPrimary == -1 else served.up[0] == served.upPrimary)
            && CrushSearch.Distinct(served.acting) && AllUp(s, served.acting)
            && (served.actingPrimary == -1 || served.actingPrimary in served.acting)
            && !served.sharded
  {
    hide Upmapped, OnlyUp, Affine, CrushSearch.Distinct, AllUp, UpmapOk, DistinctSet, AllExist;
    UpGood(s, m, pool, pg, seed, raw);
    if pg in s.pgTemp { OnlyUpGood(s, s.pgTemp[pg]); }
  }

  lemma HoledGood(s: Snapshot, osds: seq<int>)
    ensures UpOrNone(s, Holed(s, osds)) && |Holed(s, osds)| == |osds|
    ensures DistinctSet(osds) ==> DistinctSet(Holed(s, osds))
  {
  }

  lemma UndoneGood(s: Snapshot, nonprimary: set<nat>, osds: seq<int>)
    requires UpOrNone(s, osds)
    ensures UpOrNone(s, ShardOrder.Undo(nonprimary, osds))
  {
    hide IsUp;
    var undone := ShardOrder.Undo(nonprimary, osds);
    forall i | 0 <= i < |undone| ensures undone[i] == NONE || IsUp(s, undone[i]) {
      assert undone[i] == osds[ShardOrder.Where(nonprimary, |osds|, i)];
    }
  }

  /** The primary's shard is where the acting set has the primary. */
  lemma ShardGood(pool: Pool, reordered: bool, acting: seq<int>, primary: int)
    requires reordered ==> |acting| == pool.size
    ensures var shard := Shard(pool, reordered, acting, primary);
            && (shard >= 0 <==> primary in acting)
            && (shard >= 0 ==> shard < |acting| && acting[shard] == primary)
  {
    hide ShardOrder.PrimaryFirst, ShardOrder.UndoIndex, IndexOf;
    if reordered {
      var order := ShardOrder.PrimaryFirst(Marked(pool), acting);
      OrderedSize(Marked(pool), acting);
      var i := IndexOf(order, primary);
      if i < |acting| {
        ShardOrder.UndoIndexIsShard(Marked(pool), acting, i);
      } else if primary in acting {
        var shard :| 0 <= shard < |acting| && acting[shard] == primary;
        ShardOrder.PrimaryFirstAt(Marked(pool), acting, shard);
        assert false;
      }
    }
  }

  /** Erasure-coded placements: sets hold OSDs that are up or the empty marker, no raw OSD
      twice, and the primary's shard is exactly where the acting set has the primary. */
  lemma ErasureServed(s: Snapshot, m: Mixer, pool: Pool, pg: Pg, seed: Word, raw: seq<int>)
    requires Sized(s) && Erasure(pool) && pool.size > 0 && DistinctSet(raw) && Finish(s, m, pool, pg, seed, raw).Ok?
    ensures var served := Finish(s, m, pool, pg, seed, raw).value;
            && DistinctSet(served.up) && UpOrNone(s, served.up) && UpOrNone(s, served.acting)
            && (served.upPrimary == -1 || served.upPrimary in served.up)
            && (served.actingPrimary == -1 || served.actingPrimary in served.acting)
            && (served.sharded <==> served.actingPrimary != -1)
            && (served.sharded ==>
                0 <= served.primaryShard < |served.acting|
                && served.acting[served.primaryShard] == served.actingPrimary)
  {
    hide Upmapped, DistinctSet, UpOrNone, UpmapOk, Shard, Holed, AllExist, ShardOrder.Undo, Volunteer;
    UpmappedDistinct(s, pg, raw);
    HoledGood(s, Upmapped(s, pg, raw));
    if pg in s.pgTemp {
      HoledGood(s, s.pgTemp[pg]);
      UndoneGood(s, Marked(pool), Holed(s, s.pgTemp[pg]));
    }
    var served := Finish(s, m, pool, pg, seed, raw).value;
    ShardGood(pool, pg in s.pgTemp && pool.optimized, served.acting, served.actingPrimary);
    NoNegative(s, served.acting);
  }

  lemma NoNegative(s: Snapshot, osds: seq<int>)
    requires UpOrNone(s, osds)
    ensures -1 !in osds
  {
  }
}
