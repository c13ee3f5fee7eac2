/** What a served placement is, said in terms of the map's tables. */
module PlacementFacts {
  import opened Straw2
  import opened Placement
  import ShardOrder

  /** The OSD is in the map and up. */
  predicate Alive(s: Snapshot, osd: int) { 0 <= osd < |s.osds| && s.osds[osd].exists_ && s.osds[osd].up }

  /** The list has exactly the members of the source that are up, once each and in their order. */
  ghost predicate Exactly(s: Snapshot, source: seq<int>, r: seq<int>) {
    && (forall osd :: osd in r <==> osd in source && Alive(s, osd))
    && (forall i, j :: 0 <= i < j < |r| ==> r[i] != r[j])
    && (forall a, b, i, j ::
          0 <= a < b < |source| && 0 <= i < |r| && 0 <= j < |r| && source[a] == r[i] && source[b] == r[j] ==> i < j)
  }

  /** The temporary set of a group, if it has one. */
  function TempOf(s: Snapshot, pg: Pg): seq<int> { if pg in s.pgTemp then s.pgTemp[pg] else [] }

  /** Its temporary primary, or -1. */
  function ChosenPrimary(s: Snapshot, pg: Pg): int { if pg in s.primaryTemp then s.primaryTemp[pg] else -1 }

  ghost predicate AnyAlive(s: Snapshot, osds: seq<int>) { exists i :: 0 <= i < |osds| && Alive(s, osds[i]) }

  // ---------------------------------------------------------------- replicated pools

  lemma {:induction false} OnlyUpIs(s: Snapshot, osds: seq<int>)
    requires Sized(s) && DistinctSet(osds)
    ensures Exactly(s, osds, OnlyUp(s, osds))
  {
    OnlyUpGood(s, osds);
    if osds != [] {
      var n := |osds| - 1;
      var less := osds[..n];
      OnlyUpIs(s, less);
      var r, shorter := OnlyUp(s, osds), OnlyUp(s, less);
      forall a, b, i, j | 0 <= a < b < |osds| && 0 <= i < |r| && 0 <= j < |r| && osds[a] == r[i] && osds[b] == r[j]
        ensures i < j
      {
        assert r[i] in r && r[j] in r;
        if b < n {
          NotLast(s, osds, a, i);
          NotLast(s, osds, b, j);
          assert less[a] == shorter[i] && less[b] == shorter[j];
        } else {
          NotLast(s, osds, a, i);
          assert IsUp(s, r[j]);
          assert r == shorter + [osds[n]] && r[|shorter|] == r[j];
        }
      }
    }
  }

  /** What comes before the last entry stands before it in the list. */
  lemma NotLast(s: Snapshot, osds: seq<int>, a: nat, i: nat)
    requires Sized(s) && DistinctSet(osds) && a < |osds| - 1 && i < |OnlyUp(s, osds)| && OnlyUp(s, osds)[i] == osds[a]
    ensures i < |OnlyUp(s, osds[..|osds| - 1])| && OnlyUp(s, osds[..|osds| - 1])[i] == osds[a]
  {
    var n := |osds| - 1;
    OnlyUpGood(s, osds);
    assert IsUp(s, OnlyUp(s, osds)[i]);
    assert osds[a] != osds[n];
  }

  /** What serves a replicated group, by the temporary tables. */
  ghost predicate ServedBy(s: Snapshot, pg: Pg, served: Served) {
    var chosen := ChosenPrimary(s, pg);
    if AnyAlive(s, TempOf(s, pg)) then
      && Exactly(s, TempOf(s, pg), served.acting) && served.acting != []
      && served.actingPrimary == if chosen != -1 then chosen else served.acting[0]
    else
      && served.acting == served.up
      && served.actingPrimary == if chosen != -1 then chosen else served.upPrimary
  }

  /** A replicated group with a temporary set, some member of which is up, is served by exactly the
      members that are up, in their order; its primary is the temporary one, or the first of them.
      Otherwise it is served by the up set, under the temporary primary or that of the up set. */
  lemma ActingReplicated(s: Snapshot, m: Mixer, pool: Pool, pg: Pg, seed: Word, raw: seq<int>)
    requires Sized(s) && Replicated(pool) && pool.size > 0 && Finish(s, m, pool, pg, seed, raw).Ok?
    ensures ServedBy(s, pg, Finish(s, m, pool, pg, seed, raw).value)
  {
    hide Upmapped, OnlyUp, Affine, UpmapOk, AllExist, Exactly;
    if pg in s.pgTemp {
      OnlyUpIs(s, s.pgTemp[pg]);
      LeadsAlive(s, s.pgTemp[pg], OnlyUp(s, s.pgTemp[pg]));
    }
  }

  lemma LeadsAlive(s: Snapshot, source: seq<int>, r: seq<int>)
    requires Sized(s) && Exactly(s, source, r)
    ensures r != [] <==> AnyAlive(s, source)
    ensures r != [] ==> First(r) == r[0]
  {
    if r != [] {
      assert r[0] in r;
      var i :| 0 <= i < |source| && source[i] == r[0];
    }
    if AnyAlive(s, source) {
      var i :| 0 <= i < |source| && Alive(s, source[i]);
      assert source[i] in r;
    }
  }

  /** The place of the OSD that leads a set: the first that has an affinity and does not decline its
      draw, or the first that has one when all of them decline; -1 when none has. */
  ghost predicate Leads(s: Snapshot, m: Mixer, seed: Word, osds: seq<int>, p: int) {
    var drawn := (i: int) requires 0 <= i < |osds| => osds[i] != NONE && 0 <= osds[i] < |s.affinity|;
    var declines := (i: int) requires 0 <= i < |osds| && drawn(i) =>
      s.affinity[osds[i]] < 0x1_0000 && m.pair(seed, AsWord(osds[i])) / 0x1_0000 >= s.affinity[osds[i]];
    if p < 0 then p == -1 && forall i :: 0 <= i < |osds| ==> !drawn(i)
    else
      && p < |osds| && drawn(p)
      && if declines(p) then forall i :: 0 <= i < |osds| && drawn(i) ==> declines(i) && p <= i
         else forall i :: 0 <= i < p && drawn(i) ==> declines(i)
  }

  lemma VolunteerLeads(s: Snapshot, m: Mixer, seed: Word, osds: seq<int>)
    ensures Leads(s, m, seed, osds, Volunteer(s, m, seed, osds, 0, -1))
  {
    VolunteerIsFirst(s, m, seed, osds, 0, -1);
  }

  /** The up set of a replicated group: the members of the mapped set that are up, in their order, but
      with the one that primary affinity picks moved to the front; its primary is the first. */
  lemma UpReplicated(s: Snapshot, m: Mixer, pool: Pool, pg: Pg, seed: Word, raw: seq<int>)
    returns (kept: seq<int>, p: int)
    requires Sized(s) && Replicated(pool) && pool.size > 0 && DistinctSet(raw) && Finish(s, m, pool, pg, seed, raw).Ok?
    ensures var served := Finish(s, m, pool, pg, seed, raw).value;
            && Exactly(s, Upmapped(s, pg, raw), kept) && Leads(s, m, seed, kept, p)
            && served.raw == raw
            && (if p < 0 then served.up == kept
                else served.up == [kept[p]] + kept[..p] + kept[p + 1..])
            && served.upPrimary == if kept == [] then -1 else served.up[0]
  {
    hide Upmapped, OnlyUp, UpmapOk, Exactly, Leads, Volunteer, Finish, DistinctSet, First;
    FinishUp(s, m, pool, pg, seed, raw);
    UpmappedDistinct(s, pg, raw);
    kept := OnlyUp(s, Upmapped(s, pg, raw));
    OnlyUpIs(s, Upmapped(s, pg, raw));
    LeadsAlive(s, Upmapped(s, pg, raw), kept);
    p := Volunteer(s, m, seed, kept, 0, -1);
    VolunteerLeads(s, m, seed, kept);
    if |s.affinity| == 0 { NobodyLeads(s, m, seed, kept, p); }
  }

  /** The up set is not touched by what comes after it. */
  lemma FinishUp(s: Snapshot, m: Mixer, pool: Pool, pg: Pg, seed: Word, raw: seq<int>)
    requires pool.size > 0 && Finish(s, m, pool, pg, seed, raw).Ok?
    ensures var served := Finish(s, m, pool, pg, seed, raw).value;
            var mapped := UpSet(s, pool, Upmapped(s, pg, raw));
            && served.raw == raw && UpmapOk(s, pg)
            && (served.up, served.upPrimary) == Affine(s, m, pool, seed, mapped, First(mapped))
  {
    hide Upmapped, UpSet, UpmapOk, First, Affine, Temp, ShardOf;
  }

  lemma NobodyLeads(s: Snapshot, m: Mixer, seed: Word, osds: seq<int>, p: int)
    requires |s.affinity| == 0 && Leads(s, m, seed, osds, p)
    ensures p < 0
  {
  }

  // ---------------------------------------------------------------- erasure-coded pools

  /** Position by position: the OSD if it is up, a hole otherwise. */
  ghost predicate Holes(s: Snapshot, source: seq<int>, r: seq<int>) {
    |r| == |source| && forall i :: 0 <= i < |r| ==> r[i] == if Alive(s, source[i]) then source[i] else NONE
  }

  /** The first OSD of a set that is not a hole, or -1. */
  ghost predicate FirstOf(osds: seq<int>, osd: int) {
    if osd == -1 then forall i :: 0 <= i < |osds| ==> osds[i] == NONE
    else exists p :: 0 <= p < |osds| && osds[p] == osd && osd != NONE && forall i :: 0 <= i < p ==> osds[i] == NONE
  }

  lemma {:induction false} FirstIs(osds: seq<int>)
    requires -1 !in osds
    ensures FirstOf(osds, First(osds))
  {
    if osds != [] && osds[0] == NONE {
      FirstIs(osds[1..]);
      if First(osds) != -1 {
        var p :| 0 <= p < |osds[1..]| && osds[1..][p] == First(osds) && forall i :: 0 <= i < p ==> osds[1..][i] == NONE;
        assert osds[p + 1] == First(osds);
        forall i | 0 <= i < p + 1 ensures osds[i] == NONE { if i > 0 { assert osds[1..][i - 1] == NONE; } }
      } else {
        forall i | 0 <= i < |osds| ensures osds[i] == NONE { if i > 0 { assert osds[1..][i - 1] == NONE; } }
      }
    } else if osds != [] {
      assert osds[0] == First(osds);
    }
  }

  /** Shards below `n` that may not be primary, and those that may. */
  function MayNot(marked: set<nat>, n: nat): set<nat> { set k | k in marked && k < n }

  function May(marked: set<nat>, n: nat): set<nat> { set k: nat | k < n && k !in marked }

  /** Where a shard's entry stands when those that may be primary come first. */
  function Stands(marked: set<nat>, n: nat, shard: nat): int {
    if shard in marked then |May(marked, n)| + |MayNot(marked, shard)| else |May(marked, shard)|
  }

  lemma {:induction false} Counted(marked: set<nat>, n: nat)
    ensures ShardOrder.Count(marked, true, n) == |MayNot(marked, n)|
    ensures ShardOrder.Count(marked, false, n) == |May(marked, n)|
  {
    if n == 0 {
      assert MayNot(marked, 0) == {} && May(marked, 0) == {};
    } else {
      Counted(marked, n - 1);
      if n - 1 in marked {
        assert MayNot(marked, n) == MayNot(marked, n - 1) + {n - 1} && May(marked, n) == May(marked, n - 1);
      } else {
        assert May(marked, n) == May(marked, n - 1) + {n - 1} && MayNot(marked, n) == MayNot(marked, n - 1);
      }
    }
  }

  lemma StandsWhere(marked: set<nat>, n: nat, shard: nat)
    requires shard < n
    ensures Stands(marked, n, shard) == ShardOrder.Where(marked, n, shard)
  {
    hide ShardOrder.Count, May, MayNot;
    Counted(marked, n);
    Counted(marked, shard);
    ShardOrder.CountsAdd(marked, n);
  }

  /** Taken out of primary-first order, every shard has the entry that stands where it belongs. */
  lemma UndoneIs(marked: set<nat>, t: seq<int>, shard: nat)
    requires shard < |t|
    ensures 0 <= Stands(marked, |t|, shard) < |t|
    ensures ShardOrder.Undo(marked, t)[shard] == t[Stands(marked, |t|, shard)]
  {
    hide ShardOrder.Where, Stands;
    StandsWhere(marked, |t|, shard);
  }

  lemma HoledIs(s: Snapshot, osds: seq<int>)
    ensures Holes(s, osds, Holed(s, osds)) && -1 !in Holed(s, osds)
  {
  }

  /** The shards of a pool's bit set. */
  ghost predicate Bits(pool: Pool, marked: set<nat>) { forall k :: k in marked <==> k in pool.nonprimary && k < 128 }

  /** An erasure-coded group without a temporary set is served by its up set. With one, every position
      has its OSD if that is up and a hole otherwise; in an optimized pool the set is given in
      primary-first order and put back into shard order. The primary is the temporary one, or the
      first of the set as given that is up. */
  lemma ActingErasure(s: Snapshot, m: Mixer, pool: Pool, pg: Pg, seed: Word, raw: seq<int>) returns (given: seq<int>)
    requires Sized(s) && Erasure(pool) && pool.size > 0 && Finish(s, m, pool, pg, seed, raw).Ok?
    ensures var served := Finish(s, m, pool, pg, seed, raw).value;
            var chosen := ChosenPrimary(s, pg);
            && Holes(s, TempOf(s, pg), given)
            && (given == [] ==>
                  && served.acting == served.up
                  && served.actingPrimary == if chosen != -1 then chosen else served.upPrimary)
            && (given != [] ==>
                  && |served.acting| == |given|
                  && (if chosen != -1 then served.actingPrimary == chosen else FirstOf(given, served.actingPrimary))
                  && (!pool.optimized ==> served.acting == given)
                  && (pool.optimized ==>
                        forall marked, shard :: Bits(pool, marked) && 0 <= shard < |given| ==>
                          && 0 <= Stands(marked, |given|, shard) < |given|
                          && served.acting[shard] == given[Stands(marked, |given|, shard)]))
  {
    hide Upmapped, Affine, UpmapOk, AllExist, Holed, Stands, ShardOrder.Undo, Holes, FirstOf, First, ShardOf;
    given := Holed(s, TempOf(s, pg));
    HoledIs(s, TempOf(s, pg));
    FirstIs(given);
    HolesLength(s, TempOf(s, pg), given);
    forall marked, shard | Bits(pool, marked) && 0 <= shard < |given|
      ensures 0 <= Stands(marked, |given|, shard) < |given|
      ensures ShardOrder.Undo(Marked(pool), given)[shard] == given[Stands(marked, |given|, shard)]
    {
      assert marked == Marked(pool);
      UndoneIs(marked, given, shard);
    }
  }

  lemma HolesLength(s: Snapshot, source: seq<int>, r: seq<int>)
    requires Holes(s, source, r)
    ensures |r| == |source|
  {
  }

  /** The up set of an erasure-coded group: every position of the mapped set, with holes; its primary
      is the one that affinity picks, or the first that is up. */
  lemma UpErasure(s: Snapshot, m: Mixer, pool: Pool, pg: Pg, seed: Word, raw: seq<int>) returns (p: int)
    requires Sized(s) && Erasure(pool) && pool.size > 0 && Finish(s, m, pool, pg, seed, raw).Ok?
    ensures var served := Finish(s, m, pool, pg, seed, raw).value;
            && served.raw == raw && Holes(s, Upmapped(s, pg, raw), served.up) && Leads(s, m, seed, served.up, p)
            && (if p < 0 then FirstOf(served.up, served.upPrimary) else served.upPrimary == served.up[p])
  {
    hide Upmapped, UpmapOk, Holed, Leads, Volunteer, Holes, FirstOf, First, Finish;
    FinishUp(s, m, pool, pg, seed, raw);
    var up := Holed(s, Upmapped(s, pg, raw));
    HoledIs(s, Upmapped(s, pg, raw));
    FirstIs(up);
    p := Volunteer(s, m, seed, up, 0, -1);
    VolunteerLeads(s, m, seed, up);
    if |s.affinity| == 0 { NobodyLeads(s, m, seed, up, p); }
  }

  /** The primary's shard is the first in which the acting set has it, in primary-first order where
      that order is in force and in shard order otherwise. */
  lemma ShardIsFirst(s: Snapshot, m: Mixer, pool: Pool, pg: Pg, seed: Word, raw: seq<int>, other: nat)
    requires Sized(s) && Erasure(pool) && pool.size > 0 && DistinctSet(raw) && Finish(s, m, pool, pg, seed, raw).Ok?
    requires var served := Finish(s, m, pool, pg, seed, raw).value;
             served.sharded && other < |served.acting| && served.acting[other] == served.actingPrimary
    ensures var served := Finish(s, m, pool, pg, seed, raw).value;
            && 0 <= served.primaryShard < |served.acting|
            && if pg in s.pgTemp && pool.optimized
               then forall marked :: Bits(pool, marked) ==>
                      Stands(marked, |served.acting|, served.primaryShard) <= Stands(marked, |served.acting|, other)
               else served.primaryShard <= other
  {
    hide Upmapped, Affine, UpmapOk, DistinctSet, Stands, UpOrNone, SetOk, Holed, First, ShardOrder.Undo;
    ErasureServed(s, m, pool, pg, seed, raw);
    var served := Finish(s, m, pool, pg, seed, raw).value;
    if pg in s.pgTemp && pool.optimized {
      FirstShard(pool, served.acting, served.actingPrimary, other);
      forall marked | Bits(pool, marked)
        ensures Stands(marked, |served.acting|, served.primaryShard) <= Stands(marked, |served.acting|, other)
      {
        assert marked == Marked(pool);
      }
    } else {
      assert served.actingPrimary !in served.acting[..served.primaryShard];
    }
  }

  lemma FirstShard(pool: Pool, acting: seq<int>, primary: int, other: nat)
    requires |acting| == pool.size && other < |acting| && acting[other] == primary
    ensures var shard := Shard(pool, true, acting, primary);
            && 0 <= shard < |acting|
            && Stands(Marked(pool), |acting|, shard) <= Stands(Marked(pool), |acting|, other)
  {
    hide ShardOrder.PrimaryFirst, ShardOrder.Where, Stands, ShardOrder.UndoIndex, IndexOf;
    var marked, n := Marked(pool), |acting|;
    var order := ShardOrder.PrimaryFirst(marked, acting);
    OrderedSize(marked, acting);
    ShardOrder.PrimaryFirstAt(marked, acting, other);
    var i := IndexOf(order, primary);
    var at := ShardOrder.Where(marked, n, other);
    assert forall k :: 0 <= k < i ==> order[k] == order[..i][k] && order[..i][k] in order[..i];
    var shard := ShardOrder.ShardAt(marked, n, i);
    ShardOrder.PrimaryFirstAt(marked, ShardOrder.Canonical(n), shard);
    UndoIs(marked, n, i, shard);
    StandsWhere(marked, n, shard);
    StandsWhere(marked, n, other);
  }

  lemma UndoIs(marked: set<nat>, n: nat, i: nat, shard: nat)
    requires i < n && shard < n && |ShardOrder.PrimaryFirst(marked, ShardOrder.Canonical(n))| == n
    requires ShardOrder.PrimaryFirst(marked, ShardOrder.Canonical(n))[i] == shard
    ensures ShardOrder.UndoIndex(marked, n, i) == shard
  {
  }

  // ---------------------------------------------------------------- upmaps

  /** The OSD has a weight, and it is zero. */
  predicate Drained(s: Snapshot, osd: int) { osd != 0x7fff_ffff && 0 <= osd < |s.weights| && s.weights[osd] == 0 }

  /** The place of the first occurrence of an OSD from some place on. */
  ghost predicate FirstAt(osds: seq<int>, osd: int, from: nat, i: int) {
    from <= i < |osds| && osds[i] == osd && forall k :: from <= k < i ==> osds[k] != osd
  }

  /** One item puts its target where its source first stands, unless the target is there already, is
      drained, or the source is not there. */
  lemma RemapIs(s: Snapshot, osds: seq<int>, remap: Remap)
    ensures if remap.target !in osds && remap.source in osds && !Drained(s, remap.target)
            then exists i :: FirstAt(osds, remap.source, 0, i) && Remapped(s, osds, remap) == osds[i := remap.target]
            else Remapped(s, osds, remap) == osds
  {
    var i := IndexOf(osds, remap.source);
    assert forall k :: 0 <= k < i ==> osds[k] == osds[..i][k] && osds[..i][k] in osds[..i];
    if i < |osds| { assert FirstAt(osds, remap.source, 0, i); }
  }

  /** Items are applied one after the other. */
  lemma {:induction false} RemapsInTurn(s: Snapshot, osds: seq<int>, remaps: seq<Remap>, last: Remap)
    ensures RemappedAll(s, osds, []) == osds
    ensures RemappedAll(s, osds, remaps + [last]) == Remapped(s, RemappedAll(s, osds, remaps), last)
    decreases |remaps|
  {
    if remaps == [] {
      assert (remaps + [last])[1..] == [];
    } else {
      assert (remaps + [last])[1..] == remaps[1..] + [last];
      RemapsInTurn(s, Remapped(s, osds, remaps[0]), remaps[1..], last);
    }
  }

  /** A chosen primary that is in the set but not in front, and has weight, changes places with the
      first; nothing else moves. */
  lemma FrontIs(s: Snapshot, pg: Pg, osds: seq<int>)
    ensures var r := Fronted(s, pg, osds);
            if pg in s.upmapPrimary && osds != [] && s.upmapPrimary[pg] in osds[1..]
               && s.upmapPrimary[pg] != 0x7fff_ffff && 0 <= s.upmapPrimary[pg] < |s.weights|
               && s.weights[s.upmapPrimary[pg]] != 0
            then exists i :: FirstAt(osds, s.upmapPrimary[pg], 1, i) && r == osds[0 := osds[i]][i := osds[0]]
            else r == osds
  {
    if pg in s.upmapPrimary && osds != [] && s.upmapPrimary[pg] in osds[1..] {
      var i := IndexOf(osds[1..], s.upmapPrimary[pg]);
      assert forall k :: 0 <= k < i ==> osds[k + 1] == osds[1..][..i][k] && osds[1..][..i][k] in osds[1..][..i];
      assert FirstAt(osds, s.upmapPrimary[pg], 1, i + 1);
    }
  }

  /** An explicit set replaces the placement, unless one of its OSDs is drained: then no upmap of the
      group has any effect. */
  lemma UpmapIs(s: Snapshot, pg: Pg, raw: seq<int>)
    ensures pg in s.upmap && (exists i :: 0 <= i < |s.upmap[pg]| && Drained(s, s.upmap[pg][i])) ==>
              Upmapped(s, pg, raw) == raw
    ensures pg !in s.upmap || (forall i :: 0 <= i < |s.upmap[pg]| ==> !Drained(s, s.upmap[pg][i])) ==>
              var start := if pg in s.upmap then s.upmap[pg] else raw;
              var items := if pg in s.upmapItems then s.upmapItems[pg] else [];
              Upmapped(s, pg, raw) == Fronted(s, pg, RemappedAll(s, start, items))
  {
  }

  // ---------------------------------------------------------------- refusals

  /** The set names an OSD that does not exist, or, where that is not allowed, one OSD twice. */
  ghost predicate BadSet(s: Snapshot, osds: seq<int>, twice: bool) {
    || (exists i :: 0 <= i < |osds| && osds[i] != 0x7fff_ffff && !(0 <= osds[i] < |s.osds| && s.osds[osds[i]].exists_))
    || (!twice && exists i, j :: 0 <= i < j < |osds| && osds[i] == osds[j] != 0x7fff_ffff)
  }

  /** An upmap of the group cannot be used. */
  ghost predicate BadUpmap(s: Snapshot, pg: Pg) {
    || (pg in s.upmap && BadSet(s, s.upmap[pg], false))
    || (pg in s.upmapItems && exists i :: 0 <= i < |s.upmapItems[pg]| && BadTarget(s, s.upmapItems[pg][i]))
  }

  predicate BadTarget(s: Snapshot, remap: Remap) {
    remap.target != 0x7fff_ffff && !(0 <= remap.target < |s.osds| && s.osds[remap.target].exists_)
  }

  lemma BadUpmapIs(s: Snapshot, pg: Pg)
    ensures UpmapOk(s, pg) <==> !BadUpmap(s, pg)
  {
  }

  lemma BadSetIs(s: Snapshot, osds: seq<int>, twice: bool)
    ensures SetOk(s, osds, twice) <==> !BadSet(s, osds, twice)
  {
  }

  /** A replicated placement is refused exactly for an unusable upmap or temporary set, or a temporary
      primary that is not up in the set that serves. */
  lemma RefusedReplicated(s: Snapshot, m: Mixer, pool: Pool, pg: Pg, seed: Word, raw: seq<int>)
    requires Sized(s) && Replicated(pool) && pool.size > 0 && DistinctSet(raw)
    ensures var temp, chosen := TempOf(s, pg), ChosenPrimary(s, pg);
            Finish(s, m, pool, pg, seed, raw).Unsupported? <==>
              || BadUpmap(s, pg)
              || BadSet(s, temp, false)
              || (chosen != -1 && !(Alive(s, chosen)
                                    && chosen in if AnyAlive(s, temp) then temp else Upmapped(s, pg, raw)))
  {
    hide Upmapped, OnlyUp, UpmapOk, SetOk, BadSet, BadUpmap, Exactly, Volunteer, DistinctSet;
    BadUpmapIs(s, pg);
    BadSetIs(s, TempOf(s, pg), false);
    EmptyIsGood(s);
    if UpmapOk(s, pg) {
      UpmappedDistinct(s, pg, raw);
      var kept := OnlyUp(s, Upmapped(s, pg, raw));
      OnlyUpIs(s, Upmapped(s, pg, raw));
      MembersOf(s, Upmapped(s, pg, raw), kept);
      var p := if |s.affinity| == 0 then -1 else Volunteer(s, m, seed, kept, 0, -1);
      if p >= 0 { SameMembers(kept, p); }
      if SetOk(s, TempOf(s, pg), false) {
        SetDistinct(s, TempOf(s, pg));
        OnlyUpIs(s, TempOf(s, pg));
        MembersOf(s, TempOf(s, pg), OnlyUp(s, TempOf(s, pg)));
      }
    }
  }

  /** What an erasure-coded set comes to: the OSD if it is up, a hole otherwise. */
  function Filled(s: Snapshot, osd: int): int { if Alive(s, osd) then osd else 0x7fff_ffff }

  /** An erasure-coded placement is refused for an unusable upmap or temporary set, one that does not
      fit an optimized pool, or a temporary primary that has no place in the set that serves; and, with
      no more shards than the wire has numbers for, for nothing else. */
  lemma RefusedErasure(s: Snapshot, m: Mixer, pool: Pool, pg: Pg, seed: Word, raw: seq<int>)
    requires Sized(s) && Erasure(pool) && pool.size > 0
    ensures var temp, chosen := TempOf(s, pg), ChosenPrimary(s, pg);
            var set_ := if temp != [] then temp else Upmapped(s, pg, raw);
            var bad :=
              || BadUpmap(s, pg)
              || BadSet(s, temp, true)
              || (pg in s.pgTemp && pool.optimized
                  && (|temp| != pool.size || exists shard :: shard in pool.nonprimary && pool.size <= shard < 128))
              || (chosen != -1 && forall i :: 0 <= i < |set_| ==> Filled(s, set_[i]) != chosen);
            && (bad ==> Finish(s, m, pool, pg, seed, raw).Unsupported?)
            && (Finish(s, m, pool, pg, seed, raw).Unsupported? && |set_| <= 128 ==> bad)
  {
    hide Upmapped, UpmapOk, SetOk, BadSet, BadUpmap, Volunteer, DistinctSet, First, Shard, ShardOrder.Undo;
    BadUpmapIs(s, pg);
    var temp := TempOf(s, pg);
    BadSetIs(s, temp, true);
    EmptyIsGood(s);
    var given, up := Holed(s, temp), Holed(s, Upmapped(s, pg, raw));
    HoledIs(s, temp);
    HoledIs(s, Upmapped(s, pg, raw));
    UndoneMembers(Marked(pool), given);
    FilledIs(s, temp);
    FilledIs(s, Upmapped(s, pg, raw));
    if Temp(s, pool, pg).Ok? {
      var (osds, override) := Temp(s, pool, pg).value;
      var acting := if osds == [] then up else osds;
      var primary := if osds == [] && override == -1 then Affine(s, m, pool, seed, up, First(up)).1 else override;
      FirstMember(given);
      FirstMember(up);
      if Erasure(pool) && pg in s.pgTemp && pool.optimized ==> |acting| == pool.size {
        ShardGood(pool, pg in s.pgTemp && pool.optimized, acting, primary);
      }
    }
  }

  lemma FirstMember(osds: seq<int>) ensures First(osds) == -1 || First(osds) in osds { }

  lemma FilledIs(s: Snapshot, osds: seq<int>)
    ensures forall osd :: osd in Holed(s, osds) <==> exists i :: 0 <= i < |osds| && Filled(s, osds[i]) == osd
  {
    var r := Holed(s, osds);
    forall osd ensures osd in r <==> exists i :: 0 <= i < |osds| && Filled(s, osds[i]) == osd {
      if osd in r { var i :| 0 <= i < |r| && r[i] == osd; assert Filled(s, osds[i]) == osd; }
      if i :| 0 <= i < |osds| && Filled(s, osds[i]) == osd { assert r[i] == osd; }
    }
  }

  lemma UndoneMembers(marked: set<nat>, t: seq<int>)
    ensures forall osd :: osd in ShardOrder.Undo(marked, t) <==> osd in t
  {
    hide ShardOrder.Where;
    var r := ShardOrder.Undo(marked, t);
    forall osd ensures osd in r <==> osd in t {
      if osd in r {
        var i :| 0 <= i < |r| && r[i] == osd;
        assert t[ShardOrder.Where(marked, |t|, i)] == osd;
      }
      if osd in t {
        var i :| 0 <= i < |t| && t[i] == osd;
        var shard := ShardOrder.ShardAt(marked, |t|, i);
        assert r[shard] == osd;
      }
    }
  }

  lemma SetDistinct(s: Snapshot, osds: seq<int>) requires SetOk(s, osds, false) ensures DistinctSet(osds) { }

  lemma EmptyIsGood(s: Snapshot) ensures SetOk(s, [], false) && SetOk(s, [], true) { }

  lemma MembersOf(s: Snapshot, source: seq<int>, r: seq<int>)
    requires Sized(s) && Exactly(s, source, r)
    ensures forall osd :: osd in r <==> osd in source && Alive(s, osd)
    ensures r != [] <==> AnyAlive(s, source)
    ensures r != [] ==> First(r) == r[0] && r[0] in r && r[0] != -1
  {
    LeadsAlive(s, source, r);
  }

  lemma SameMembers(osds: seq<int>, p: nat)
    requires p < |osds|
    ensures forall osd :: osd in Rotated(osds, p) <==> osd in osds
  {
    assert osds == osds[..p] + [osds[p]] + osds[p + 1..];
  }
}
