/** What a listing promises whatever the servers answer, and when it may fail. */
module EnumerationFacts {
  import opened HObject
  import opened Enumeration

  // ---------------------------------------------------------------- pages

  /** No entry comes before another that follows it. */
  ghost predicate Rising(entries: seq<HObject>) {
    forall i, j :: 0 <= i < j < |entries| ==> AtMost(entries[i], entries[j])
  }

  ghost predicate From(low: HObject, entries: seq<HObject>) {
    forall i :: 0 <= i < |entries| ==> AtMost(low, entries[i])
  }

  ghost predicate UpTo(entries: seq<HObject>, high: HObject) {
    forall i :: 0 <= i < |entries| ==> AtMost(entries[i], high)
  }

  /** All of them are below `high`, which matters only if it is not the maximum. */
  ghost predicate Under(entries: seq<HObject>, high: HObject) {
    !high.max ==> forall i :: 0 <= i < |entries| ==> Less(entries[i], high)
  }

  lemma {:induction false} FollowsRise(start: HObject, next: HObject, entries: seq<HObject>, i: nat)
    requires Ordered(start, next, entries) && i < |entries|
    ensures AtMost(start, entries[i]) && forall j :: 0 <= j <= i ==> AtMost(entries[j], entries[i])
  {
    hide Compare;
    assert Follows(start, next, entries, i);
    if i == 0 {
      TotalPreorder(entries[0], entries[0], entries[0]);
    } else {
      FollowsRise(start, next, entries, i - 1);
      TotalPreorder(start, entries[i - 1], entries[i]);
      forall j | 0 <= j <= i ensures AtMost(entries[j], entries[i]) {
        TotalPreorder(entries[j], entries[i - 1], entries[i]);
        TotalPreorder(entries[i], entries[i], entries[i]);
      }
    }
  }

  /** A page passes exactly if it ends at the maximum or at a head of the pool beyond the position asked for,
      and its entries rise from that position and stay below its end. */
  lemma PageOkIs(poolId: int, start: HObject, page: Page)
    ensures PageOk(poolId, start, page) <==>
            && (page.next.max ||
                  (page.next.snapshot == 0xffff_ffff_ffff_fffe && page.next.pool == poolId && Less(start, page.next)))
            && Rising(page.entries) && From(start, page.entries) && Under(page.entries, page.next)
  {
    hide Compare;
    var entries := page.entries;
    if Ordered(start, page.next, entries) {
      forall i | 0 <= i < |entries|
        ensures AtMost(start, entries[i]) && forall j :: 0 <= j <= i ==> AtMost(entries[j], entries[i])
      {
        FollowsRise(start, page.next, entries, i);
      }
      assert forall i :: 0 <= i < |entries| && Follows(start, page.next, entries, i) && !page.next.max ==>
          Less(entries[i], page.next);
    }
  }

  // ---------------------------------------------------------------- any servers

  /** A listing that is in order: no more than the limit, rising from the start, nothing at or above the end
      and nothing beyond the position reached. */
  ghost predicate Orderly(start: HObject, end: HObject, limit: nat, entries: seq<HObject>, next: HObject) {
    && |entries| <= limit && AtMost(start, next) && AtMost(next, end)
    && Rising(entries) && From(start, entries) && UpTo(entries, next) && Under(entries, end)
  }

  lemma {:induction false} BelowKeeps(entries: seq<HObject>, end: HObject)
    requires Rising(entries)
    ensures forall i :: 0 <= i < |Below(entries, end)| ==> Less(Below(entries, end)[i], end)
  {
    hide Compare;
    if entries != [] {
      var last := entries[|entries| - 1];
      if Compare(last, end) >= 0 {
        BelowKeeps(entries[..|entries| - 1], end);
      } else {
        forall i | 0 <= i < |entries| ensures Less(entries[i], end) {
          TotalPreorder(entries[i], last, end);
          TotalPreorder(last, last, last);
        }
      }
    }
  }

  /** What is kept of a page that passes is in order between the position asked for and the new one. */
  lemma KeptOrderly(poolId: int, cursor: HObject, end: HObject, page: Page, available: nat)
    requires PageOk(poolId, cursor, page) && Less(cursor, end) && available > 0
    ensures var kept := Kept(page, end, available);
            Orderly(cursor, end, available, kept.entries, kept.next)
                && (Less(cursor, kept.next) || |kept.entries| == available)
  {
    hide Compare, PageOk, Below, Rising, From, UpTo, Under;
    PageOkIs(poolId, cursor, page);
    PastCursor(poolId, cursor, end, page);
    TotalPreorder(page.next, end, end);
    TotalPreorder(end, end, end);
    var clipped := if Compare(page.next, end) > 0 then Page(Below(page.entries, end), end) else page;
    Clipped(cursor, end, page);
    if |clipped.entries| > available {
      Cut(cursor, end, clipped.entries, clipped.next, available);
    }
  }

  lemma Clipped(cursor: HObject, end: HObject, page: Page)
    requires Rising(page.entries) && From(cursor, page.entries) && Under(page.entries, page.next)
    requires Less(cursor, page.next) && Less(cursor, end)
    ensures var clipped := if Compare(page.next, end) > 0 then Page(Below(page.entries, end), end) else page;
            Orderly(cursor, end, |clipped.entries|, clipped.entries, clipped.next)
  {
    hide Compare;
    if Compare(page.next, end) > 0 {
      BelowKeeps(page.entries, end);
      TotalPreorder(end, end, end);
    } else {
      forall i | 0 <= i < |page.entries|
        ensures AtMost(page.entries[i], page.next) && (!end.max ==> Less(page.entries[i], end))
      {
        NothingAboveMax(page.entries[i], page.next);
        TotalPreorder(page.entries[i], page.next, end);
        OnlyMaxAtMost(page.next, end);
      }
    }
  }

  /** What reaches up to something below the maximum is not the maximum. */
  lemma OnlyMaxAtMost(o: HObject, end: HObject)
    ensures AtMost(o, end) && o.max ==> end.max
  {
  }

  lemma Cut(cursor: HObject, end: HObject, entries: seq<HObject>, next: HObject, n: nat)
    requires Orderly(cursor, end, |entries|, entries, next) && n < |entries|
    ensures Orderly(cursor, end, n, entries[..n], entries[n])
  {
    hide Compare;
    TotalPreorder(entries[n], next, end);
  }

  /** A page in order behind a listing in order. */
  lemma Appended(start: HObject, end: HObject, limit: nat, entries: seq<HObject>, next: HObject, more: seq<HObject>,
                 further: HObject)
    requires Orderly(start, end, limit, entries, next)
    requires Orderly(next, end, limit - |entries|, more, further)
    ensures Orderly(start, end, limit, entries + more, further)
  {
    hide Compare;
    var joined := entries + more;
    TotalPreorder(start, next, further);
    forall i | 0 <= i < |joined| ensures AtMost(start, joined[i]) && AtMost(joined[i], further) {
      TotalPreorder(start, next, joined[i]);
      TotalPreorder(joined[i], next, further);
    }
    forall i, j | 0 <= i < j < |joined| ensures AtMost(joined[i], joined[j]) {
      TotalPreorder(joined[i], next, joined[j]);
    }
  }

  /** Whatever the servers answer, truthfully or not, a listing that is returned is in order, and it stops
      only at the limit or at the end. */
  lemma {:induction false} AnyListingOrderly(poolId: int, start: HObject, end: HObject, limit: nat, servers: Servers,
                                             steps: nat, i: nat, entries: seq<HObject>, next: HObject)
    requires Orderly(start, end, limit, entries, next)
    ensures match Following(poolId, end, limit, servers, steps, i, entries, next)
            case Done(Listed(found, last)) =>
              Orderly(start, end, limit, found, last) && (|found| == limit || Compare(last, end) == 0)
            case Running(found, last) => Orderly(start, end, limit, found, last)
            case Done(Failed) => true
    decreases steps - i
  {
    hide Compare, PageOk, Kept, Rising, From, UpTo, Under;
    TotalPreorder(next, end, next);
    if |entries| < limit && Compare(next, end) < 0 && i < steps {
      match servers(i, next, limit - |entries|)
      case Refused =>
      case Reply(page) =>
        if PageOk(poolId, next, page) {
          var kept := Kept(page, end, limit - |entries|);
          KeptOrderly(poolId, next, end, page, limit - |entries|);
          Appended(start, end, limit, entries, next, kept.entries, kept.next);
          AnyListingOrderly(poolId, start, end, limit, servers, steps, i + 1, entries + kept.entries, kept.next);
        }
    }
  }

  // ---------------------------------------------------------------- failing

  /** The request made at a position below the end, for what is still wanted of the limit, was refused or
      answered with a page that does not pass. */
  ghost predicate Blames(poolId: int, all: seq<HObject>, start: HObject, end: HObject, limit: nat, servers: Servers,
                         i: nat, cursor: HObject) {
    && AtMost(start, cursor) && Less(cursor, end) && |Range(all, start, cursor)| < limit
    && match servers(i, cursor, limit - |Range(all, start, cursor)|)
       case Refused => true
       case Reply(page) => !PageOk(poolId, cursor, page)
  }

  /** With truthful servers a listing fails only for that reason: every request asks at the position reached,
      for exactly the number of objects that are still missing. */
  lemma {:induction false} FailsOnlyIf(poolId: int, all: seq<HObject>, start: HObject, end: HObject, limit: nat,
                                       servers: Servers, steps: nat, i: nat, entries: seq<HObject>, next: HObject)
    returns (j: nat, cursor: HObject)
    requires Sorted(all) && Truthful(servers, all) && GoodSoFar(all, start, end, limit, entries, next)
    requires Following(poolId, end, limit, servers, steps, i, entries, next) == Done(Failed)
    ensures i <= j < steps && Blames(poolId, all, start, end, limit, servers, j, cursor)
    decreases steps - i
  {
    hide Compare, Range, Sorted, Kept, PageOk, Truthful;
    j, cursor := i, next;
    match servers(i, next, limit - |entries|)
    case Refused =>
    case Reply(page) =>
      if PageOk(poolId, next, page) {
        PageAdds(poolId, all, servers, i, start, end, limit, entries, next);
        var kept := Kept(page, end, limit - |entries|);
        j, cursor := FailsOnlyIf(poolId, all, start, end, limit, servers, steps, i + 1, entries + kept.entries,
                                 kept.next);
      }
  }
}
