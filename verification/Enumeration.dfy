/** Listing the objects of a pool page by page. */
module Enumeration {
  import opened HObject

  const NO_SNAP := 0xffff_ffff_ffff_fffe
  const MIN_INT64 := -0x8000_0000_0000_0000

  /** A page: the positions of its entries, in order, and where the next page starts. */
  datatype Page = Page(entries: seq<HObject>, next: HObject)

  datatype Reply = Reply(page: Page) | Refused

  /** The entries found and where to go on; nothing when a page was refused. */
  datatype Listing = Listed(entries: seq<HObject>, next: HObject) | Failed

  /** Still running after the pages it was given. */
  datatype Progress = Done(listing: Listing) | Running(entries: seq<HObject>, next: HObject)

  predicate IsMin(o: HObject) { o.snapshot == 0 && o.hash == 0 && !o.max && o.pool == MIN_INT64 }

  // ---------------------------------------------------------------- objects in order

  /** Objects in strictly increasing order, none of them the maximum. */
  ghost predicate Sorted(all: seq<HObject>) { forall i, j :: 0 <= i < j < |all| ==> Less(all[i], all[j]) }

  /** The objects from `low` up to but without `high`. */
  ghost function Range(all: seq<HObject>, low: HObject, high: HObject): (r: seq<HObject>) {
    if all == [] then []
    else (if AtMost(low, all[0]) && Less(all[0], high) then [all[0]] else []) + Range(all[1..], low, high)
  }

  lemma {:induction false} RangeMember(all: seq<HObject>, low: HObject, high: HObject, o: HObject)
    requires o in Range(all, low, high)
    ensures o in all && AtMost(low, o) && Less(o, high)
  {
    hide AtMost, Less;
    if AtMost(low, all[0]) && Less(all[0], high) && o == all[0] { } else { RangeMember(all[1..], low, high, o); }
  }

  lemma {:induction false} RangeSorted(all: seq<HObject>, low: HObject, high: HObject)
    requires Sorted(all)
    ensures Sorted(Range(all, low, high))
  {
    hide AtMost, Less;
    if all != [] {
      RangeSorted(all[1..], low, high);
      var rest := Range(all[1..], low, high);
      forall j | 0 <= j < |rest| ensures Less(all[0], rest[j]) {
        RangeMember(all[1..], low, high, rest[j]);
        var k :| 0 <= k < |all[1..]| && all[1..][k] == rest[j];
        assert all[k + 1] == rest[j];
      }
    }
  }

  /** Nothing of the list lies in a range that starts at or above its own end. */
  lemma {:induction false} RangeNone(all: seq<HObject>, low: HObject, high: HObject)
    requires AtMost(high, low)
    ensures Range(all, low, high) == []
  {
    hide Compare;
    if all != [] {
      TotalPreorder(high, low, all[0]);
      TotalPreorder(high, all[0], high);
      RangeNone(all[1..], low, high);
    }
  }

  /** Above the middle there is nothing of the lower part once the list has passed it. */
  lemma {:induction false} RangeBelow(all: seq<HObject>, low: HObject, middle: HObject)
    requires Sorted(all) && all != [] && AtMost(middle, all[0])
    ensures Range(all, low, middle) == []
  {
    hide Compare;
    TotalPreorder(middle, all[0], middle);
    if |all| > 1 {
      assert Less(all[0], all[1]);
      TotalPreorder(middle, all[0], all[1]);
      assert all[1..][0] == all[1];
      forall i, j | 0 <= i < j < |all[1..]|
        ensures Less(all[1..][i], all[1..][j])
      {
        assert Less(all[i + 1], all[j + 1]);
      }
      RangeBelow(all[1..], low, middle);
    } else {
      assert Range(all[1..], low, middle) == [];
    }
  }

  /** Ranges that meet follow each other. */
  lemma {:induction false} RangesFollow(all: seq<HObject>, low: HObject, middle: HObject, high: HObject)
    requires Sorted(all) && AtMost(low, middle) && AtMost(middle, high)
    ensures Range(all, low, high) == Range(all, low, middle) + Range(all, middle, high)
  {
    hide Compare;
    if all != [] {
      var o, rest := all[0], all[1..];
      forall i, j | 0 <= i < j < |rest| ensures Less(rest[i], rest[j]) { assert Less(all[i + 1], all[j + 1]); }
      RangesFollow(rest, low, middle, high);
      Placed(low, middle, high, o);
      if Less(o, middle) {
        assert Range(all, middle, high) == Range(rest, middle, high);
      } else {
        RangeBelow(all, low, middle);
        RestBelow(all, low, middle);
        assert [] + Range(rest, middle, high) == Range(rest, middle, high);
      }
    }
  }

  lemma RestBelow(all: seq<HObject>, low: HObject, middle: HObject)
    requires all != [] && Range(all, low, middle) == []
    ensures Range(all[1..], low, middle) == []
  {
  }

  /** Where an object lies with respect to the three positions. */
  lemma Placed(low: HObject, middle: HObject, high: HObject, o: HObject)
    requires AtMost(low, middle) && AtMost(middle, high)
    ensures Less(o, middle) ==> !AtMost(middle, o) && Less(o, high)
    ensures !Less(o, middle) ==> AtMost(middle, o) && AtMost(low, o)
  {
    hide Compare;
    TotalPreorder(o, middle, high);
    TotalPreorder(middle, o, middle);
    TotalPreorder(low, middle, o);
  }

  /** A prefix of a range ends where its next object starts. */
  lemma {:induction false} RangePrefix(all: seq<HObject>, low: HObject, high: HObject, n: nat)
    requires Sorted(all) && n < |Range(all, low, high)|
    ensures Range(all, low, Range(all, low, high)[n]) == Range(all, low, high)[..n]
  {
    hide Compare;
    var r := Range(all, low, high);
    var cut := r[n];
    RangeMember(all, low, high, cut);
    RangesFollow(all, low, cut, high) by { TotalPreorder(low, cut, high); }
    RangeSorted(all, low, high);
    var below, above := Range(all, low, cut), Range(all, cut, high);
    assert r == below + above;
    CutIs(all, low, cut, high, n);
  }

  /** The objects below a member of the range are those before it. */
  lemma CutIs(all: seq<HObject>, low: HObject, cut: HObject, high: HObject, n: nat)
    requires Sorted(all) && Range(all, low, high) == Range(all, low, cut) + Range(all, cut, high)
    requires n < |Range(all, low, high)| && Range(all, low, high)[n] == cut
    ensures |Range(all, low, cut)| == n
  {
    hide Compare, Range;
    var r, below, above := Range(all, low, high), Range(all, low, cut), Range(all, cut, high);
    RangeSorted(all, low, high);
    if n < |below| {
      assert below[n] == cut && below[n] in below;
      RangeMember(all, low, cut, cut);
      TotalPreorder(cut, cut, cut);
      assert false;
    }
    if n > |below| {
      assert r[|below|] == above[0] && above[0] in above;
      RangeMember(all, cut, high, above[0]);
      assert Less(r[|below|], r[n]);
      TotalPreorder(above[0], cut, above[0]);
      assert false;
    }
  }

  // ---------------------------------------------------------------- a page

  /** A page lists everything between the position asked for and its end. */
  ghost predicate Complete(all: seq<HObject>, cursor: HObject, page: Page) {
    page.entries == Range(all, cursor, page.next)
  }

  predicate NextOk(poolId: int, next: HObject) {
    next.max || (!IsMin(next) && next.snapshot == NO_SNAP && next.pool == poolId)
  }

  predicate Follows(start: HObject, next: HObject, entries: seq<HObject>, i: nat)
    requires i < |entries|
  {
    AtMost(if i == 0 then start else entries[i - 1], entries[i]) && (next.max || Less(entries[i], next))
  }

  /** The entries do not fall, start at the cursor and stay below the end of the page. */
  predicate Ordered(start: HObject, next: HObject, entries: seq<HObject>) {
    forall i :: 0 <= i < |entries| ==> Follows(start, next, entries, i)
  }

  predicate PageOk(poolId: int, start: HObject, page: Page) {
    NextOk(poolId, page.next) && Ordered(start, page.next, page.entries) && (page.next.max || Less(start, page.next))
  }

  method ValidatePage(poolId: int, start: HObject, page: Page) returns (ok: bool)
    ensures ok == PageOk(poolId, start, page)
  {
    hide Compare;
    if !page.next.max && (IsMin(page.next) || page.next.snapshot != NO_SNAP
                          || page.next.pool != poolId) { return false; }
    var previous := start;
    var i := 0;
    while i < |page.entries|
      invariant 0 <= i <= |page.entries| && previous == if i == 0 then start else page.entries[i - 1]
      invariant forall j :: 0 <= j < i ==> Follows(start, page.next, page.entries, j)
    {
      var entry := page.entries[i];
      TotalPreorder(entry, previous, entry);
      if Compare(entry, previous) < 0 || (!page.next.max && Compare(entry, page.next) >= 0) {
        assert !Follows(start, page.next, page.entries, i);
        return false;
      }
      previous := entry;
      i := i + 1;
    }
    TotalPreorder(page.next, start, page.next);
    if !page.next.max && Compare(page.next, start) <= 0 { return false; }
    return true;
  }

  // ---------------------------------------------------------------- all pages

  /** What a page adds: no more than up to the end, and no more than is still wanted. */
  function Kept(page: Page, end: HObject, available: nat): (r: Page)
    requires available > 0
    ensures |r.entries| <= available
  {
    var clipped := if Compare(page.next, end) > 0 then Page(Below(page.entries, end), end) else page;
    if |clipped.entries| > available then Page(clipped.entries[..available], page.entries[available]) else clipped
  }

  /** The entries before the first one, counted from the back, that is below the end. */
  function Below(entries: seq<HObject>, end: HObject): (r: seq<HObject>)
    ensures r <= entries
  {
    if entries != [] && Compare(entries[|entries| - 1], end) >= 0 then Below(entries[..|entries| - 1], end) else entries
  }

  method ClipPage(page: Page, end: HObject, available: nat) returns (r: Page)
    requires available > 0
    ensures r == Kept(page, end, available)
  {
    hide Compare;
    var next, count := page.next, |page.entries|;
    assert page.entries[..count] == page.entries;
    if Compare(next, end) > 0 {
      next := end;
      while count > 0 && Compare(page.entries[count - 1], end) >= 0
        invariant 0 <= count <= |page.entries| && Below(page.entries, end) == Below(page.entries[..count], end)
      {
        assert page.entries[..count][..count - 1] == page.entries[..count - 1];
        count := count - 1;
      }
      assert page.entries[..count] == Below(page.entries, end);
    }
    if count > available {
      next := page.entries[available];
      count := available;
    }
    return Page(page.entries[..count], next);
  }

  /** The answers of the servers: any answer, to any request, at any time. */
  type Servers = (nat, HObject, nat) -> Reply

  /** A server that answers lists everything between the cursor and the end of its page. */
  ghost predicate Truthful(servers: Servers, all: seq<HObject>) {
    forall i, cursor, count :: servers(i, cursor, count).Reply? ==>
        Complete(all, cursor, servers(i, cursor, count).page)
  }

  /** The listing that follows from a position: pages are fetched until the limit or the end is
      reached, and the first refusal or unusable page ends it. */
  function Following(poolId: int, end: HObject, limit: nat, servers: Servers, steps: nat, i: nat,
                     entries: seq<HObject>, next: HObject)
    : (r: Progress)
    requires |entries| <= limit
    decreases steps - i
  {
    if |entries| >= limit || Compare(next, end) >= 0 then Done(Listed(entries, next))
    else if i >= steps then Running(entries, next)
    else match servers(i, next, limit - |entries|)
      case Refused => Done(Failed)
      case Reply(page) =>
        if !PageOk(poolId, next, page) then Done(Failed)
        else
          var kept := Kept(page, end, limit - |entries|);
          Following(poolId, end, limit, servers, steps, i + 1, entries + kept.entries, kept.next)
  }

  /** Lists objects for at most `steps` requests. */
  method EnumeratePages(poolId: int, start: HObject, end: HObject, limit: nat, servers: Servers, steps: nat,
                        ghost all: seq<HObject>)
    returns (r: Progress)
    requires limit > 0 && Sorted(all) && AtMost(start, end) && !start.max && Truthful(servers, all)
    ensures r == if Compare(start, end) == 0 then Done(Listed([], end))
            else Following(poolId, end, limit, servers, steps, 0, [], start)
    ensures r.Running? ==> GoodSoFar(all, start, end, limit, r.entries, r.next)
    ensures r.Done? && r.listing.Listed? ==> GoodListing(all, start, end, limit, r.listing)
  {
    hide Compare, Truthful, Sorted, Kept, PageOk;
    if Compare(start, end) == 0 {
      NothingBetween(all, start, end);
      return Done(Listed([], end));
    }
    var entries, next := [], start;
    NothingYet(all, start, end);
    var i := 0;
    while |entries| < limit && Compare(next, end) < 0
      invariant GoodSoFar(all, start, end, limit, entries, next) && |entries| <= limit
      invariant Following(poolId, end, limit, servers, steps, 0, [], start) ==
                  Following(poolId, end, limit, servers, steps, i, entries, next)
      decreases steps - i
    {
      if i >= steps { return Running(entries, next); }
      var reply := servers(i, next, limit - |entries|);
      if reply.Refused? { return Done(Failed); }
      var ok := ValidatePage(poolId, next, reply.page);
      if !ok { return Done(Failed); }
      var kept := ClipPage(reply.page, end, limit - |entries|);
      PageAdds(poolId, all, servers, i, start, end, limit, entries, next);
      entries, next := entries + kept.entries, kept.next;
      i := i + 1;
    }
    return Done(Listed(entries, next));
  }

  lemma NothingAboveMax(o: HObject, end: HObject)
    ensures end.max ==> AtMost(o, end)
  {
  }

  /** What a caller gets: a bad request is refused, any other is listed. */
  method Enumerate(poolId: int, start: HObject, end: HObject, limit: nat, maximum: nat, servers: Servers, steps: nat,
                   ghost all: seq<HObject>)
    returns (r: Progress)
    requires Sorted(all) && Truthful(servers, all)
    ensures limit == 0 || limit > maximum || start.max || Less(end, start) ==> r == Done(Failed)
    ensures 0 < limit <= maximum && !start.max && AtMost(start, end) ==>
              r == if Compare(start, end) == 0 then Done(Listed([], end))
                  else Following(poolId, end, limit, servers, steps, 0, [], start)
    ensures r.Running? ==> GoodSoFar(all, start, end, limit, r.entries, r.next)
    ensures r.Done? && r.listing.Listed? ==> GoodListing(all, start, end, limit, r.listing)
  {
    hide Truthful, Sorted, Following, GoodSoFar, Compare;
    TotalPreorder(start, end, start);
    NothingAboveMax(start, end);
    if limit == 0 || limit > maximum || start.max || (!end.max && Compare(start, end) > 0) { return Done(Failed); }
    r := EnumeratePages(poolId, start, end, limit, servers, steps, all);
  }

  /** Exactly the objects from the start up to the position reached, no more than the limit,
      none at or above the end. */
  ghost predicate GoodSoFar(all: seq<HObject>, start: HObject, end: HObject, limit: nat, entries: seq<HObject>,
                            next: HObject) {
    AtMost(start, next) && AtMost(next, end) && entries == Range(all, start, next) && |entries| <= limit
  }

  /** And nothing was left out: the limit is reached or the end is. */
  ghost predicate GoodListing(all: seq<HObject>, start: HObject, end: HObject, limit: nat, r: Listing)
    requires r.Listed?
  {
    GoodSoFar(all, start, end, limit, r.entries, r.next) && (|r.entries| == limit || Compare(r.next, end) == 0)
  }

  lemma NothingYet(all: seq<HObject>, start: HObject, end: HObject)
    requires AtMost(start, end)
    ensures AtMost(start, start) && Range(all, start, start) == []
  {
    hide Compare;
    TotalPreorder(start, start, start);
    RangeNone(all, start, start);
  }

  lemma NothingBetween(all: seq<HObject>, start: HObject, end: HObject)
    requires Compare(start, end) == 0
    ensures AtMost(start, end) && AtMost(end, end) && Range(all, start, end) == [] && Compare(end, end) == 0
  {
    hide Compare;
    TotalPreorder(start, end, start);
    TotalPreorder(end, end, end);
    RangeNone(all, start, end);
  }

  /** What is kept of a good page is exactly what lies up to the new position, which is beyond the old one. */
  lemma KeptIs(poolId: int, all: seq<HObject>, cursor: HObject, end: HObject, page: Page, available: nat)
    requires Sorted(all) && Less(cursor, end) && available > 0 && Complete(all, cursor, page)
             && PageOk(poolId, cursor, page)
    ensures var kept := Kept(page, end, available);
            kept.entries == Range(all, cursor, kept.next) && |kept.entries| <= available && Less(cursor, kept.next)
                && AtMost(kept.next, end)
  {
    hide Compare, Range, Sorted, Below, PageOk;
    PastCursor(poolId, cursor, end, page);
    var clipped := if Compare(page.next, end) > 0 then Page(Below(page.entries, end), end) else page;
    TotalPreorder(page.next, end, page.next);
    TotalPreorder(end, end, end);
    if Compare(page.next, end) > 0 {
      BelowIs(all, cursor, end, page.next);
    }
    assert clipped.entries == Range(all, cursor, clipped.next) && Less(cursor, clipped.next)
        && AtMost(clipped.next, end);
    if |clipped.entries| > available {
      assert clipped.entries[available] == page.entries[available];
      RangePrefix(all, cursor, clipped.next, available);
      StrictlyBeyond(all, cursor, clipped.next, available, end);
    }
  }

  lemma PastCursor(poolId: int, cursor: HObject, end: HObject, page: Page)
    requires PageOk(poolId, cursor, page) && Less(cursor, end)
    ensures Less(cursor, page.next)
  {
    if page.next.max { NotMax(cursor, end); }
  }

  lemma NotMax(cursor: HObject, end: HObject)
    requires Less(cursor, end)
    ensures !cursor.max
  {
  }

  /** Cutting a sorted page off at the end leaves what lies below it. */
  lemma BelowIs(all: seq<HObject>, low: HObject, end: HObject, high: HObject)
    requires Sorted(all) && AtMost(low, end) && AtMost(end, high)
    ensures Below(Range(all, low, high), end) == Range(all, low, end)
  {
    hide Compare, Range;
    RangesFollow(all, low, end, high);
    AllAbove(all, end, high);
    BelowCuts(Range(all, low, end), Range(all, end, high), end);
    LastBelow(all, low, end);
  }

  lemma AllAbove(all: seq<HObject>, end: HObject, high: HObject)
    ensures forall i {:trigger Range(all, end, high)[i]} :: 0 <= i < |Range(all, end, high)| ==>
              Compare(Range(all, end, high)[i], end) >= 0
  {
    hide Compare, Range;
    var above := Range(all, end, high);
    forall i | 0 <= i < |above| ensures Compare(above[i], end) >= 0 {
      assert above[i] in above;
      RangeMember(all, end, high, above[i]);
      TotalPreorder(end, above[i], end);
    }
  }

  lemma LastBelow(all: seq<HObject>, low: HObject, end: HObject)
    ensures Below(Range(all, low, end), end) == Range(all, low, end)
  {
    hide Compare, Range;
    var r := Range(all, low, end);
    if r != [] {
      assert r[|r| - 1] in r;
      RangeMember(all, low, end, r[|r| - 1]);
    }
  }

  lemma {:induction false} BelowCuts(below: seq<HObject>, above: seq<HObject>, end: HObject)
    requires forall i :: 0 <= i < |above| ==> Compare(above[i], end) >= 0
    ensures Below(below + above, end) == Below(below, end)
    decreases |above|
  {
    hide Compare;
    if above == [] {
      assert below + above == below;
    } else {
      var n := |above| - 1;
      assert (below + above)[..|below| + n] == below + above[..n];
      BelowCuts(below, above[..n], end);
    }
  }

  lemma StrictlyBeyond(all: seq<HObject>, low: HObject, high: HObject, n: nat, end: HObject)
    requires Sorted(all) && 0 < n < |Range(all, low, high)| && AtMost(high, end)
    ensures Less(low, Range(all, low, high)[n]) && AtMost(Range(all, low, high)[n], end)
  {
    hide Compare, Range;
    var r := Range(all, low, high);
    RangeSorted(all, low, high);
    assert r[0] in r && r[n] in r;
    RangeMember(all, low, high, r[0]);
    RangeMember(all, low, high, r[n]);
    assert Less(r[0], r[n]) by { assert Sorted(r); }
    TotalPreorder(low, r[0], r[n]);
    TotalPreorder(r[n], high, end);
  }

  /** An accepted page takes the listing strictly further. */
  lemma PageAdds(poolId: int, all: seq<HObject>, servers: Servers, i: nat, start: HObject, end: HObject, limit: nat,
                 entries: seq<HObject>, next: HObject)
    requires Sorted(all) && Truthful(servers, all) && GoodSoFar(all, start, end, limit, entries, next)
    requires |entries| < limit && Compare(next, end) < 0
    requires servers(i, next, limit - |entries|).Reply?
             && PageOk(poolId, next, servers(i, next, limit - |entries|).page)
    ensures var kept := Kept(servers(i, next, limit - |entries|).page, end, limit - |entries|);
            GoodSoFar(all, start, end, limit, entries + kept.entries, kept.next) && Less(next, kept.next)
  {
    hide Compare, Range, Sorted, Kept, PageOk;
    var page := servers(i, next, limit - |entries|).page;
    assert Complete(all, next, page);
    KeptIs(poolId, all, next, end, page, limit - |entries|);
    var kept := Kept(page, end, limit - |entries|);
    TotalPreorder(start, next, kept.next);
    RangesFollow(all, start, next, kept.next);
  }

  /** Calls that go on where the last one stopped. */
  ghost predicate Chained(all: seq<HObject>, start: HObject, end: HObject, limits: seq<nat>, listings: seq<Listing>)
    decreases |listings|
  {
    && |limits| == |listings|
    && (listings != [] ==>
          && listings[0].Listed? && GoodListing(all, start, end, limits[0], listings[0])
          && Chained(all, listings[0].next, end, limits[1..], listings[1..]))
  }

  /** Where a chain of calls has got to. */
  function Reached(start: HObject, listings: seq<Listing>): HObject
    decreases |listings|
  {
    if listings == [] || listings[0].Failed? then start else Reached(listings[0].next, listings[1..])
  }

  function Joined(listings: seq<Listing>): (r: seq<HObject>) {
    if listings == [] || listings[0].Failed? then [] else listings[0].entries + Joined(listings[1..])
  }

  /** A chain of calls lists every object from its start to where it has got, once and in order. */
  lemma {:induction false} ChainListsAll(all: seq<HObject>, start: HObject, end: HObject, limits: seq<nat>,
                                         listings: seq<Listing>)
    requires Sorted(all) && Chained(all, start, end, limits, listings)
    ensures Joined(listings) == Range(all, start, Reached(start, listings)) && AtMost(start, Reached(start, listings))
    ensures Sorted(Joined(listings))
    decreases |listings|
  {
    hide Compare, Range, Sorted;
    if listings == [] {
      TotalPreorder(start, start, start);
      NothingYet(all, start, start);
    } else {
      var next, last := listings[0].next, Reached(listings[0].next, listings[1..]);
      ChainListsAll(all, next, end, limits[1..], listings[1..]);
      TotalPreorder(start, next, last);
      RangesFollow(all, start, next, last);
    }
    RangeSorted(all, start, Reached(start, listings));
  }

  lemma {:induction false} RangeShort(all: seq<HObject>, low: HObject, high: HObject)
    ensures |Range(all, low, high)| <= |all|
  {
    hide Compare;
    if all != [] { RangeShort(all[1..], low, high); }
  }

  /** A call at the end stays there. */
  lemma {:induction false} StaysAtEnd(all: seq<HObject>, start: HObject, end: HObject, limits: seq<nat>,
                                      listings: seq<Listing>)
    requires Chained(all, start, end, limits, listings) && Compare(start, end) == 0
    ensures Compare(Reached(start, listings), end) == 0
    decreases |listings|
  {
    hide Compare, Range;
    if listings != [] {
      TotalPreorder(end, start, listings[0].next);
      TotalPreorder(start, end, start);
      TotalPreorder(end, listings[0].next, end);
      StaysAtEnd(all, listings[0].next, end, limits[1..], listings[1..]);
    }
  }

  /** More calls than there are objects left, each for at least one object, get to the end. */
  lemma {:induction false} ChainGetsThere(all: seq<HObject>, start: HObject, end: HObject, limits: seq<nat>,
                                          listings: seq<Listing>)
    requires Sorted(all) && Chained(all, start, end, limits, listings) && AtMost(start, end)
    requires |listings| > |Range(all, start, end)| && forall i :: 0 <= i < |limits| ==> limits[i] > 0
    ensures Compare(Reached(start, listings), end) == 0
    decreases |listings|
  {
    hide Compare, Range, Sorted;
    var next := listings[0].next;
    if Compare(next, end) == 0 {
      StaysAtEnd(all, next, end, limits[1..], listings[1..]);
    } else {
      RangesFollow(all, start, next, end);
      assert |Range(all, start, next)| == limits[0];
      ChainGetsThere(all, next, end, limits[1..], listings[1..]);
    }
  }

  /** So at most one call more than there are objects lists the whole range, once and in order. */
  lemma ChainListsRange(all: seq<HObject>, start: HObject, end: HObject, limits: seq<nat>, listings: seq<Listing>)
    requires Sorted(all) && Chained(all, start, end, limits, listings) && AtMost(start, end)
    requires |listings| >= |all| + 1 && forall i :: 0 <= i < |limits| ==> limits[i] > 0
    ensures Compare(Reached(start, listings), end) == 0 && Joined(listings) == Range(all, start, end)
  {
    hide Compare, Range, Sorted, Chained, Joined, Reached;
    RangeShort(all, start, end);
    ChainGetsThere(all, start, end, limits, listings);
    ChainListsAll(all, start, end, limits, listings);
    var last := Reached(start, listings);
    TotalPreorder(last, end, last);
    RangesFollow(all, start, last, end);
    RangeNone(all, last, end);
  }
}
