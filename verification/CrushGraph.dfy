/** The bucket graph of a CRUSH map and the check that it can be descended. */
module CrushGraph {
  import opened Common
  import opened Straw2

  const MAX_DEPTH := 64

  datatype Fault = BadIdentity | BadLengths | TooDeep | Cyclic | BadDevice | MissingBucket

  datatype Verdict = Accepted | Refused(fault: Fault)

  datatype Graph = Graph(maxDevices: int, buckets: map<int, Bucket>)

  // ---------------------------------------------------------------- what a usable graph is

  predicate Identified(id: int, bucket: Bucket) { id < 0 && bucket.id == id }

  /** Every bucket is filed under its own negative id with one weight for each item. */
  ghost predicate Filed(g: Graph) {
    forall id :: id in g.buckets ==>
                   Identified(id, g.buckets[id]) && |g.buckets[id].items| == |g.buckets[id].weights|
  }

  predicate ItemOk(g: Graph, item: int) { if item >= 0 then item < g.maxDevices else item in g.buckets }

  ghost predicate ItemsOk(g: Graph, items: seq<int>) { forall i :: 0 <= i < |items| ==> ItemOk(g, items[i]) }

  /** Every item is a device in range or an existing bucket. */
  ghost predicate Closed(g: Graph) { forall id :: id in g.buckets ==> ItemsOk(g, g.buckets[id].items) }

  ghost predicate Child(g: Graph, parent: int, item: int) {
    parent in g.buckets && item in g.buckets && item in g.buckets[parent].items
  }

  /** Buckets each of which is an item of the one before. */
  ghost predicate IsChain(g: Graph, path: seq<int>) {
    && path != [] && path[0] in g.buckets
    && (|path| > 1 ==> Child(g, path[0], path[1]) && IsChain(g, path[1..]))
  }

  ghost predicate Shallow(g: Graph) { forall path :: IsChain(g, path) ==> |path| <= MAX_DEPTH }

  ghost predicate Acyclic(g: Graph) { forall path :: IsChain(g, path) && |path| > 1 ==> path[0] != path[|path| - 1] }

  ghost predicate Usable(g: Graph) { Filed(g) && Closed(g) && Shallow(g) }

  // ---------------------------------------------------------------- chains

  lemma {:induction false} ChainsJoin(g: Graph, a: seq<int>, b: seq<int>)
    requires IsChain(g, a) && IsChain(g, b) && Child(g, a[|a| - 1], b[0])
    ensures IsChain(g, a + b)
  {
    if |a| == 1 {
      assert (a + b)[1..] == b;
    } else {
      ChainsJoin(g, a[1..], b);
      assert (a + b)[1..] == a[1..] + b;
    }
  }

  lemma {:induction false} ChainTail(g: Graph, path: seq<int>, i: nat)
    requires IsChain(g, path) && i < |path|
    ensures IsChain(g, path[i..]) && path[i] in g.buckets
  {
    if i == 0 { assert path[0..] == path; } else {
      ChainTail(g, path[1..], i - 1);
      assert path[1..][i - 1..] == path[i..];
    }
  }

  lemma {:induction false} ChainHead(g: Graph, path: seq<int>, n: nat)
    requires IsChain(g, path) && 0 < n <= |path|
    ensures IsChain(g, path[..n])
  {
    if n > 1 {
      ChainHead(g, path[1..], n - 1);
      assert path[..n][1..] == path[1..][..n - 1];
    }
  }

  /** Going round a loop gives chains of any length. */
  lemma {:induction false} Pumped(g: Graph, loop: seq<int>, n: nat) returns (path: seq<int>)
    requires IsChain(g, loop) && Child(g, loop[|loop| - 1], loop[0])
    ensures IsChain(g, path) && |path| >= n && path[0] == loop[0]
  {
    if n == 0 {
      path := loop;
    } else {
      var rest := Pumped(g, loop, n - 1);
      ChainsJoin(g, loop, rest);
      path := loop + rest;
    }
  }

  lemma {:induction false} LastStep(g: Graph, path: seq<int>)
    requires IsChain(g, path) && |path| > 1
    ensures Child(g, path[|path| - 2], path[|path| - 1])
  {
    if |path| > 2 { LastStep(g, path[1..]); }
  }

  /** A bound on the depth of every chain already rules out loops. */
  lemma ShallowIsAcyclic(g: Graph)
    requires Shallow(g)
    ensures Acyclic(g)
  {
    forall path | IsChain(g, path) && |path| > 1 ensures path[0] != path[|path| - 1] {
      if path[0] == path[|path| - 1] {
        LastStep(g, path);
        ChainHead(g, path, |path| - 1);
        var long := Pumped(g, path[..|path| - 1], MAX_DEPTH + 1);
        assert false;
      }
    }
  }

  // ---------------------------------------------------------------- heights

  /** The longest descent from a bucket, looking at most `fuel` buckets down. */
  function Height(g: Graph, id: int, fuel: nat): (h: nat)
    ensures h <= fuel
    decreases fuel, 0
  {
    if fuel == 0 || id !in g.buckets then 0 else 1 + Tallest(g, g.buckets[id].items, fuel - 1)
  }

  function Tallest(g: Graph, items: seq<int>, fuel: nat): (h: nat)
    ensures h <= fuel
    decreases fuel, 1, items
  {
    if items == [] then 0
    else
      var first, rest := Height(g, items[0], fuel), Tallest(g, items[1..], fuel);
      if first > rest then first else rest
  }

  function Rank(g: Graph, id: int): (h: nat) { Height(g, id, MAX_DEPTH + 1) }

  /** A height is reached by a chain. */
  lemma {:induction false} HeightReached(g: Graph, id: int, fuel: nat) returns (path: seq<int>)
    requires id in g.buckets && fuel > 0
    ensures IsChain(g, path) && path[0] == id && |path| == Height(g, id, fuel)
    decreases fuel, 0
  {
    var items := g.buckets[id].items;
    if Tallest(g, items, fuel - 1) == 0 { return [id]; }
    var i, rest := TallestReached(g, items, fuel - 1);
    path := [id] + rest;
    assert path[1..] == rest;
  }

  lemma {:induction false} TallestReached(g: Graph, items: seq<int>, fuel: nat) returns (i: nat, path: seq<int>)
    requires Tallest(g, items, fuel) > 0
    ensures i < |items| && items[i] in g.buckets
    ensures IsChain(g, path) && path[0] == items[i] && |path| == Tallest(g, items, fuel)
    decreases fuel, 1, items
  {
    if Height(g, items[0], fuel) > Tallest(g, items[1..], fuel) {
      i := 0;
      path := HeightReached(g, items[0], fuel);
    } else {
      i, path := TallestReached(g, items[1..], fuel);
      i := i + 1;
    }
  }

  lemma {:induction false} TallestIsTallest(g: Graph, items: seq<int>, fuel: nat, i: nat)
    requires i < |items|
    ensures Height(g, items[i], fuel) <= Tallest(g, items, fuel)
  {
    if i > 0 { TallestIsTallest(g, items[1..], fuel, i - 1); }
  }

  /** Once the fuel is more than the height, more of it changes nothing. */
  lemma {:induction false} FuelSpare(g: Graph, id: int, fuel: nat)
    requires Height(g, id, fuel) < fuel
    ensures Height(g, id, fuel + 1) == Height(g, id, fuel)
    decreases fuel, 0
  {
    if id in g.buckets { FuelSpareAll(g, g.buckets[id].items, fuel - 1); }
  }

  lemma {:induction false} FuelSpareAll(g: Graph, items: seq<int>, fuel: nat)
    requires Tallest(g, items, fuel) < fuel || items == []
    ensures Tallest(g, items, fuel + 1) == Tallest(g, items, fuel)
    decreases fuel, 1, items
  {
    if items != [] {
      FuelSpare(g, items[0], fuel);
      FuelSpareAll(g, items[1..], fuel);
    }
  }

  /** Descending lowers the rank, which never exceeds the certified depth. */
  lemma RankFalls(g: Graph, parent: int, item: int)
    requires Shallow(g) && Child(g, parent, item)
    ensures Rank(g, item) < Rank(g, parent) <= MAX_DEPTH
  {
    hide Height, Tallest, IsChain;
    var path := HeightReached(g, parent, MAX_DEPTH + 1);
    FuelSpare(g, parent, MAX_DEPTH + 1);
    var items := g.buckets[parent].items;
    var i :| 0 <= i < |items| && items[i] == item;
    TallestIsTallest(g, items, MAX_DEPTH + 1, i);
    HeightStep(g, parent, MAX_DEPTH + 1);
  }

  lemma HeightStep(g: Graph, id: int, fuel: nat)
    requires id in g.buckets
    ensures Height(g, id, fuel + 1) == 1 + Tallest(g, g.buckets[id].items, fuel)
  {
  }

  // ---------------------------------------------------------------- the depth-first check

  lemma Extended(g: Graph, stack: seq<int>, id: int)
    requires id in g.buckets
    requires stack != [] ==> IsChain(g, stack) && Child(g, stack[|stack| - 1], id)
    ensures IsChain(g, stack + [id])
  {
    if stack != [] { ChainsJoin(g, stack, [id]); }
  }

  /** Meeting a bucket that is being visited closes a loop. */
  lemma Loops(g: Graph, stack: seq<int>, id: int)
    requires IsChain(g, stack) && id in stack && Child(g, stack[|stack| - 1], id)
    ensures !Acyclic(g) && !Shallow(g)
  {
    var i :| 0 <= i < |stack| && stack[i] == id;
    ChainTail(g, stack, i);
    var loop := stack[i..];
    var long := Pumped(g, loop, MAX_DEPTH + 1);
    Extended(g, loop, id);
    assert (loop + [id])[0] == (loop + [id])[|loop|];
  }

  ghost predicate Grown(before: map<int, nat>, after: map<int, nat>) {
    forall k :: k in before ==> k in after && after[k] == before[k]
  }

  /** An item that is a bucket is finished and lower than `height`. */
  ghost predicate Beneath(heights: map<int, nat>, item: int, height: nat) {
    item >= 0 || (item in heights && heights[item] < height)
  }

  ghost predicate AllBeneath(g: Graph, heights: map<int, nat>, items: seq<int>, height: nat) {
    forall i :: 0 <= i < |items| ==> ItemOk(g, items[i]) && Beneath(heights, items[i], height)
  }

  /** `path` shows that the height of `id` is reached. */
  ghost predicate Reaches(g: Graph, path: seq<int>, id: int, height: nat) {
    IsChain(g, path) && path[0] == id && |path| == height
  }

  ghost predicate Settled(g: Graph, heights: map<int, nat>, longest: map<int, seq<int>>, id: int)
    requires id in heights && id in longest
  {
    && id in g.buckets && heights[id] <= MAX_DEPTH
    && AllBeneath(g, heights, g.buckets[id].items, heights[id])
    && Reaches(g, longest[id], id, heights[id])
  }

  ghost predicate AllSettled(g: Graph, heights: map<int, nat>, longest: map<int, seq<int>>) {
    && heights.Keys == longest.Keys
    && forall id :: id in heights ==> Settled(g, heights, longest, id)
  }

  /** A bucket is being visited (1) when it is on the stack and finished (2) when it has a height. */
  ghost predicate Marked(states: map<int, nat>, heights: map<int, nat>, stack: seq<int>) {
    && (forall id :: id in states ==> states[id] == 1 || states[id] == 2)
    && (forall id :: id in heights <==> id in states && states[id] == 2)
    && (forall id :: id in stack <==> id in states && states[id] == 1)
  }

  ghost predicate Stacked(g: Graph, stack: seq<int>) { stack != [] ==> IsChain(g, stack) }

  lemma BeneathGrows(g: Graph, before: map<int, nat>, after: map<int, nat>, items: seq<int>, low: nat, high: nat)
    requires Grown(before, after) && AllBeneath(g, before, items, low) && low <= high
    ensures AllBeneath(g, after, items, high)
  {
    forall i | 0 <= i < |items| ensures ItemOk(g, items[i]) && Beneath(after, items[i], high) {
      assert Beneath(before, items[i], low);
    }
  }

  /** Finishing a bucket whose items are all beneath it. */
  lemma SettleOne(g: Graph, heights: map<int, nat>, longest: map<int, seq<int>>, id: int, height: nat, path: seq<int>)
    requires AllSettled(g, heights, longest) && id !in heights && id in g.buckets && height <= MAX_DEPTH
    requires AllBeneath(g, heights, g.buckets[id].items, height) && Reaches(g, path, id, height)
    ensures AllSettled(g, heights[id := height], longest[id := path])
  {
    hide AllBeneath, Reaches;
    var after := heights[id := height];
    assert after.Keys == heights.Keys + {id};
    assert longest[id := path].Keys == longest.Keys + {id};
    BeneathGrows(g, heights, after, g.buckets[id].items, height, height);
    forall other | other in after ensures Settled(g, after, longest[id := path], other) {
      if other != id {
        assert Settled(g, heights, longest, other);
        BeneathGrows(g, heights, after, g.buckets[other].items, heights[other], heights[other]);
      }
    }
  }

  /** Every chain from a finished bucket is at most as long as its height. */
  lemma {:induction false} HeightBounds(g: Graph, heights: map<int, nat>, longest: map<int, seq<int>>, path: seq<int>)
    requires AllSettled(g, heights, longest) && IsChain(g, path) && path[0] in heights && Filed(g)
    ensures |path| <= heights[path[0]]
  {
    assert Settled(g, heights, longest, path[0]);
    if |path| > 1 {
      assert Identified(path[1], g.buckets[path[1]]);
      assert Beneath(heights, path[1], heights[path[0]]);
      HeightBounds(g, heights, longest, path[1..]);
    }
  }

  lemma AllDoneIsUsable(g: Graph, heights: map<int, nat>, longest: map<int, seq<int>>)
    requires AllSettled(g, heights, longest) && Filed(g) && heights.Keys == g.buckets.Keys
    ensures Usable(g)
  {
    hide AllBeneath, Reaches;
    forall id | id in g.buckets ensures ItemsOk(g, g.buckets[id].items) {
      assert Settled(g, heights, longest, id);
      BeneathOk(g, heights, g.buckets[id].items, heights[id]);
    }
    forall path | IsChain(g, path) ensures |path| <= MAX_DEPTH {
      HeightBounds(g, heights, longest, path);
      assert Settled(g, heights, longest, path[0]);
    }
  }

  lemma BeneathOk(g: Graph, heights: map<int, nat>, items: seq<int>, height: nat)
    requires AllBeneath(g, heights, items, height)
    ensures ItemsOk(g, items)
  {
  }

  /** A chain that is too long, or a bad item, shows that the graph is not usable. */
  lemma TooLong(g: Graph, stack: seq<int>, path: seq<int>)
    requires IsChain(g, path) && |stack| + |path| > MAX_DEPTH
    requires stack != [] ==> IsChain(g, stack) && Child(g, stack[|stack| - 1], path[0])
    ensures !Usable(g)
  {
    if stack != [] { ChainsJoin(g, stack, path); }
    assert IsChain(g, stack + path) by { if stack == [] { assert stack + path == path; } }
  }

  lemma BadItem(g: Graph, id: int, i: nat)
    requires id in g.buckets && i < |g.buckets[id].items| && !ItemOk(g, g.buckets[id].items[i])
    ensures !Usable(g)
  {
  }

  /** The state of the depth-first search: buckets being visited, and the heights of
      those that are finished. */
  class Visitor {
    const g: Graph
    var states: map<int, nat>
    var heights: map<int, nat>
    /** For every finished bucket, a chain from it as long as its height. */
    ghost var longest: map<int, seq<int>>

    constructor (g: Graph)
      ensures this.g == g && states == map[] && heights == map[] && longest == map[]
    {
      this.g, states, heights, longest := g, map[], map[], map[];
    }

    ghost predicate Valid(stack: seq<int>)
      reads this
    {
      Filed(g) && AllSettled(g, heights, longest) && Marked(states, heights, stack) && Stacked(g, stack)
    }

    /** Visits a bucket below the ones on the stack. Success gives its height within the
        certified depth; a refusal shows that the graph is not usable. */
    method Visit(id: int, depth: nat, ghost stack: seq<int>) returns (verdict: Verdict, height: nat)
      requires Valid(stack) && id in g.buckets && depth == |stack| + 1 <= MAX_DEPTH + 1
      requires stack != [] ==> Child(g, stack[|stack| - 1], id)
      modifies this
      ensures verdict.Accepted? ==> Valid(stack) && Grown(old(heights), heights)
      ensures verdict.Accepted? ==> id in heights && height == heights[id] && depth + height - 1 <= MAX_DEPTH
      ensures verdict.Refused? ==> !Usable(g)
      decreases MAX_DEPTH + 1 - depth, 1
    {
      hide AllSettled, IsChain, Usable, Filed, Child, Shallow, Acyclic, Settled;
      height := 0;
      Extended(g, stack, id);
      if depth > MAX_DEPTH {
        TooLong(g, stack, [id]) by { ChainOfOne(g, id); }
        return Refused(TooDeep), 0;
      }
      var state := if id in states then states[id] else 0;
      if state == 1 {
        LoopUnusable(g, stack, id);
        return Refused(Cyclic), 0;
      }
      if state == 2 {
        SettledAt(g, heights, longest, id);
        if depth + heights[id] - 1 > MAX_DEPTH {
          TooLong(g, stack, longest[id]);
          return Refused(TooDeep), 0;
        }
        return Accepted, heights[id];
      }
      assert (stack + [id])[|stack|] == id;
      states := states[id := 1];
      ghost var path;
      verdict, height, path := VisitItems(id, depth, stack + [id]);
      if verdict.Refused? { return; }
      SettleOne(g, heights, longest, id, height, path);
      states := states[id := 2];
      heights := heights[id := height];
      longest := longest[id := path];
    }

    /** Visits the items of the bucket on top of the stack. */
    method VisitItems(id: int, depth: nat, ghost stack: seq<int>)
      returns (verdict: Verdict, height: nat, ghost path: seq<int>)
      requires Valid(stack) && id in g.buckets && depth == |stack| <= MAX_DEPTH
      requires stack != [] && stack[|stack| - 1] == id
      modifies this
      ensures verdict.Accepted? ==> Valid(stack) && Grown(old(heights), heights) && depth + height - 1 <= MAX_DEPTH
      ensures verdict.Accepted? ==> AllBeneath(g, heights, g.buckets[id].items, height) && Reaches(g, path, id, height)
      ensures verdict.Refused? ==> !Usable(g)
      decreases MAX_DEPTH + 1 - depth, 0
    {
      hide AllSettled, IsChain, Usable, Filed, Shallow, Acyclic, Settled, Marked;
      verdict, height, path := Accepted, 1, [id];
      ChainOfOne(g, id);
      var items := g.buckets[id].items;
      var i := 0;
      while i < |items|
        invariant 0 <= i <= |items| && depth + height - 1 <= MAX_DEPTH && verdict.Accepted?
        invariant Valid(stack) && Grown(old(heights), heights) && Reaches(g, path, id, height)
        invariant AllBeneath(g, heights, items[..i], height)
      {
        var item := items[i];
        if item >= 0 {
          if item >= g.maxDevices { BadItem(g, id, i); return Refused(BadDevice), 0, []; }
        } else {
          if item !in g.buckets { BadItem(g, id, i); return Refused(MissingBucket), 0, []; }
          assert item in items && Child(g, id, item);
          ghost var before := heights;
          var childHeight;
          verdict, childHeight := Visit(item, depth + 1, stack);
          if verdict.Refused? { return verdict, 0, []; }
          BeneathGrows(g, before, heights, items[..i], height, if childHeight + 1 > height then childHeight + 1
                       else height);
          if childHeight + 1 > height {
            height := childHeight + 1;
            SettledAt(g, heights, longest, item);
            ChainOnTop(g, id, longest[item]);
            path := [id] + longest[item];
          }
        }
        assert items[..i + 1] == items[..i] + [item];
        i := i + 1;
      }
      assert items[..i] == items;
    }
  }

  lemma ChainOfOne(g: Graph, id: int)
    requires id in g.buckets
    ensures IsChain(g, [id])
  {
  }

  lemma ChainOnTop(g: Graph, id: int, path: seq<int>)
    requires path != [] && IsChain(g, path) && Child(g, id, path[0])
    ensures IsChain(g, [id] + path)
  {
    ChainsJoin(g, [id], path);
  }

  lemma LoopUnusable(g: Graph, stack: seq<int>, id: int)
    requires stack != [] && IsChain(g, stack) && id in stack && Child(g, stack[|stack| - 1], id)
    ensures !Usable(g)
  {
    Loops(g, stack, id);
  }

  lemma SettledAt(g: Graph, heights: map<int, nat>, longest: map<int, seq<int>>, id: int)
    requires AllSettled(g, heights, longest) && id in heights
    ensures id in longest && longest[id] != [] && Reaches(g, longest[id], id, heights[id]) && heights[id] <= MAX_DEPTH
  {
    assert Settled(g, heights, longest, id);
  }

  lemma GrownKeys(before: map<int, nat>, after: map<int, nat>)
    requires Grown(before, after)
    ensures before.Keys <= after.Keys
  {
    forall k | k in before.Keys ensures k in after.Keys { }
  }

  /** The identity checks before the search, over the buckets in any order. */
  method CheckFiled(g: Graph) returns (verdict: Verdict)
    ensures verdict.Accepted? <==> Filed(g)
  {
    var left := g.buckets.Keys;
    while left != {}
      invariant left <= g.buckets.Keys
      invariant forall id :: id in g.buckets && id !in left ==>
                               Identified(id, g.buckets[id]) && |g.buckets[id].items| == |g.buckets[id].weights|
      decreases |left|
    {
      var id := PickMember(left);
      if id >= 0 || g.buckets[id].id != id { return Refused(BadIdentity); }
      if |g.buckets[id].items| != |g.buckets[id].weights| { return Refused(BadLengths); }
      left := left - {id};
    }
    return Accepted;
  }

  /** The graph is accepted exactly when it is usable, in whatever order its buckets come. */
  method Validate(g: Graph) returns (verdict: Verdict)
    ensures verdict.Accepted? <==> Usable(g)
    ensures verdict.Accepted? ==> Acyclic(g)
  {
    hide IsChain, Shallow, Acyclic, Closed, Child;
    verdict := CheckFiled(g);
    if verdict.Refused? { return; }
    var visitor := new Visitor(g);
    var left := g.buckets.Keys;
    while left != {}
      invariant left <= g.buckets.Keys && visitor.g == g && visitor.Valid([])
      invariant g.buckets.Keys - left <= visitor.heights.Keys
      decreases |left|
    {
      var id := PickMember(left);
      var height;
      ghost var before := visitor.heights;
      verdict, height := visitor.Visit(id, 1, []);
      if verdict.Refused? { return; }
      GrownKeys(before, visitor.heights);
      left := left - {id};
    }
    forall id | id in visitor.heights
      ensures id in g.buckets
    {
      assert Settled(g, visitor.heights, visitor.longest, id);
    }
    assert visitor.heights.Keys == g.buckets.Keys;
    AllDoneIsUsable(g, visitor.heights, visitor.longest);
    ShallowIsAcyclic(g);
    return Accepted;
  }
}
