/** When a CRUSH search finds something and when it may give up, said in terms of single descents. */
module CrushFacts {
  import opened Straw2
  import opened CrushGraph
  import opened CrushSearch
  import CrushRules

  /** How one descent ends. */
  datatype Trial = Hit(item: int, leaf: int) | Miss | DeadEnd

  /** One descent from bucket `at` with replica number `r`, straw by straw: it hits an item of the
      kind that is new, not out and has a leaf if one is wanted; it misses on an empty bucket or on an
      item that is taken, out or without a leaf; and it ends at an item that leads nowhere. */
  ghost function Attempt(w: World, e: Effort, seed: Word, kind: int, leafward: bool, r: nat,
                         taken: seq<int>, leaves: seq<int>, at: int): Trial
    requires Usable(w.g) && at in w.g.buckets
    decreases if leafward then 1 else 0, 0, Rank(w.g, at)
  {
    var bucket := w.g.buckets[at];
    if bucket.items == [] then Miss
    else
      var item := Straw(w, bucket, seed, r);
      if item >= w.g.maxDevices || (item < 0 && item !in w.g.buckets) then DeadEnd
      else if KindOf(w, item) != kind then
        if item >= 0 then DeadEnd
        else RankFalls(w.g, at, item); Attempt(w, e, seed, kind, leafward, r, taken, leaves, item)
      else if item in taken || (KindOf(w, item) == 0 && IsOut(w, item, seed)) then Miss
      else if leafward && item < 0 then
        var leaf := Tried(w, LeafEffort(e), seed, 0, false, LeafBase(e, r, |taken|), leaves, [], item, 0);
        if leaf.Hit? then Hit(item, leaf.item) else Miss
      else Hit(item, item)
  }

  /** Descents with the replica numbers from `base + k` on, until one does not miss or the tries are
      used up. */
  ghost function Tried(w: World, e: Effort, seed: Word, kind: int, leafward: bool, base: nat,
                       taken: seq<int>, leaves: seq<int>, root: int, k: nat): Trial
    requires Usable(w.g) && root in w.g.buckets
    decreases if leafward then 1 else 0, 1, Left(e.tries, k)
  {
    var trial := Attempt(w, e, seed, kind, leafward, base + k, taken, leaves, root);
    if trial.Miss? && k + 1 < e.tries then Tried(w, e, seed, kind, leafward, base, taken, leaves, root, k + 1)
    else trial
  }

  function AsFound(trial: Trial): Found { if trial.Hit? then Found(trial.item, trial.leaf) else Skipped }

  /** No retries within a bucket. */
  predicate Plain(e: Effort) { e.localRetries == 0 && e.fallbackRetries == 0 }

  // ---------------------------------------------------------------- the search is its descents

  lemma {:induction false} SearchAt(w: World, e: Effort, seed: Word, kind: int, leafward: bool, base: nat,
                                    taken: seq<int>, leaves: seq<int>, root: int, at: int, k: nat)
    requires Usable(w.g) && root in w.g.buckets && at in w.g.buckets && Plain(e)
    ensures Search(w, e, seed, kind, leafward, base, taken, leaves, root, at, k, 0) ==
            var trial := Attempt(w, e, seed, kind, leafward, base + k, taken, leaves, at);
            if trial.Miss? && k + 1 < e.tries
            then Search(w, e, seed, kind, leafward, base, taken, leaves, root, root, k + 1, 0)
            else AsFound(trial)
    decreases if leafward then 1 else 0, 0, Rank(w.g, at)
  {
    hide Straw, IsOut, LeafBase, Tried;
    var bucket := w.g.buckets[at];
    if bucket.items != [] {
      var item := Straw(w, bucket, seed, base + k);
      if item >= w.g.maxDevices || (item < 0 && item !in w.g.buckets) {
      } else if KindOf(w, item) != kind {
        if item < 0 {
          RankFalls(w.g, at, item);
          SearchAt(w, e, seed, kind, leafward, base, taken, leaves, root, item, k);
        }
      } else if leafward && item < 0 {
        SearchIsTried(w, LeafEffort(e), seed, 0, false, LeafBase(e, base + k, |taken|), leaves, [], item, 0);
      }
    }
  }

  /** Without retries inside buckets a search is its descents, one after the other. */
  lemma {:induction false} SearchIsTried(w: World, e: Effort, seed: Word, kind: int, leafward: bool, base: nat,
                                         taken: seq<int>, leaves: seq<int>, root: int, k: nat)
    requires Usable(w.g) && root in w.g.buckets && Plain(e)
    ensures Search(w, e, seed, kind, leafward, base, taken, leaves, root, root, k, 0) ==
            AsFound(Tried(w, e, seed, kind, leafward, base, taken, leaves, root, k))
    decreases if leafward then 1 else 0, 1, Left(e.tries, k)
  {
    hide Search, Attempt;
    SearchAt(w, e, seed, kind, leafward, base, taken, leaves, root, root, k);
    var trial := Attempt(w, e, seed, kind, leafward, base + k, taken, leaves, root);
    if trial.Miss? && k + 1 < e.tries {
      SearchIsTried(w, e, seed, kind, leafward, base, taken, leaves, root, k + 1);
    }
  }

  // ---------------------------------------------------------------- the first descent that counts

  /** A search for one replica: where it starts, what it looks for and what is taken. */
  datatype Quest = Quest(w: World, e: Effort, seed: Word, kind: int, leafward: bool, base: nat,
                         taken: seq<int>, leaves: seq<int>, root: int)

  ghost predicate Fit(q: Quest) { Usable(q.w.g) && q.root in q.w.g.buckets }

  /** How many descents it may make. */
  function Most(e: Effort): nat { if e.tries == 0 then 1 else e.tries }

  /** Its descent number `k`. */
  ghost function Nth(q: Quest, k: nat): Trial
    requires Fit(q)
  {
    Attempt(q.w, q.e, q.seed, q.kind, q.leafward, q.base + k, q.taken, q.leaves, q.root)
  }

  ghost predicate MissesBelow(q: Quest, n: nat)
    requires Fit(q)
  {
    forall k :: 0 <= k < n ==> Nth(q, k) == Miss
  }

  /** It may give up: every descent misses, or the first that does not leads nowhere. */
  ghost predicate GivesUp(q: Quest)
    requires Fit(q)
  {
    MissesBelow(q, Most(q.e)) || exists k :: 0 <= k < Most(q.e) && Nth(q, k) == DeadEnd && MissesBelow(q, k)
  }

  /** The first descent that does not miss hits this. */
  ghost predicate Succeeds(q: Quest, item: int, leaf: int)
    requires Fit(q)
  {
    exists k :: 0 <= k < Most(q.e) && Nth(q, k) == Hit(item, leaf) && MissesBelow(q, k)
  }

  ghost function Sought(q: Quest): Found
    requires Fit(q)
  {
    Search(q.w, q.e, q.seed, q.kind, q.leafward, q.base, q.taken, q.leaves, q.root, q.root, 0, 0)
  }

  lemma {:induction false} TriedIsLeast(q: Quest, k: nat) returns (n: nat)
    requires Fit(q) && k < Most(q.e) && MissesBelow(q, k)
    ensures var trial := Tried(q.w, q.e, q.seed, q.kind, q.leafward, q.base, q.taken, q.leaves, q.root, k);
            && n < Most(q.e) && trial == Nth(q, n) && MissesBelow(q, n)
            && (trial == Miss ==> MissesBelow(q, Most(q.e)))
    decreases Left(q.e.tries, k)
  {
    hide Attempt;
    if Nth(q, k).Miss? && k + 1 < q.e.tries { n := TriedIsLeast(q, k + 1); } else { n := k; }
  }

  /** A search finds what the first of its descents that does not miss hits, and gives up exactly if
      it may. */
  lemma SearchIsLeast(q: Quest)
    requires Fit(q) && Plain(q.e)
    ensures Sought(q).Skipped? <==> GivesUp(q)
    ensures forall item, leaf :: Sought(q) == Found(item, leaf) <==> Succeeds(q, item, leaf)
  {
    hide Search, Attempt, Tried, Nth;
    SearchIsTried(q.w, q.e, q.seed, q.kind, q.leafward, q.base, q.taken, q.leaves, q.root, 0);
    var n := TriedIsLeast(q, 0);
    forall k | 0 <= k < Most(q.e) && Nth(q, k) != Miss && MissesBelow(q, k) ensures Nth(q, k) == Nth(q, n) {
      FirstIsOne(q, n, k);
    }
  }

  /** Two descents that do not miss, with nothing but misses before them, are one. */
  lemma FirstIsOne(q: Quest, n: nat, k: nat)
    requires Fit(q) && n < Most(q.e) && k < Most(q.e) && MissesBelow(q, n) && MissesBelow(q, k) && Nth(q, k) != Miss
    requires Nth(q, n) == Miss ==> MissesBelow(q, Most(q.e))
    ensures k == n
  {
    hide Nth;
  }

  // ---------------------------------------------------------------- all replicas

  /** The search for replica `j` when `n` of the items of a placement are chosen. */
  function ForReplica(w: World, e: Effort, seed: Word, kind: int, leafward: bool, parentR: nat, root: int,
                      j: nat, out: seq<int>, under: seq<int>, n: nat): Quest
    requires n <= |out| && n <= |under|
  {
    Quest(w, e, seed, kind, leafward, j + parentR, out[..n], under[..n], root)
  }

  /** Which of the replicas below `upto` were placed: they are in order, each has the item that its own search hits
      after those before it, and every other replica's search gives up. */
  ghost predicate Placements(w: World, e: Effort, seed: Word, kind: int, leafward: bool, parentR: nat, root: int,
                             first: nat, upto: nat, start: nat, out: seq<int>, under: seq<int>, placed: seq<nat>)
    requires Usable(w.g) && root in w.g.buckets
  {
    && |under| == |out| == start + |placed|
    && (forall n :: 0 <= n < |placed| ==> first <= placed[n] < upto)
    && (forall n, m :: 0 <= n < m < |placed| ==> placed[n] < placed[m])
    && (forall n :: 0 <= n < |placed| ==>
          Succeeds(ForReplica(w, e, seed, kind, leafward, parentR, root, placed[n], out, under, start + n),
                   out[start + n], under[start + n]))
    && (forall j, n :: first <= j < upto && 0 <= n <= |placed| && Between(placed, n, j) ==>
          GivesUp(ForReplica(w, e, seed, kind, leafward, parentR, root, j, out, under, start + n)))
  }

  /** Replica `j` is not placed, and `n` of those placed come before it. */
  predicate Between(placed: seq<nat>, n: nat, j: nat)
    requires n <= |placed|
  {
    (n > 0 ==> placed[n - 1] < j) && (n < |placed| ==> j < placed[n])
  }

  lemma {:induction false} Prefixes(w: World, e: Effort, seed: Word, kind: int, leafward: bool, parentR: nat, root: int,
                                    replica: nat, replicas: nat, count: nat, taken: seq<int>, leaves: seq<int>)
    requires Usable(w.g) && root in w.g.buckets && |leaves| == |taken|
    ensures var (out, under) := FirstN(w, e, seed, kind, leafward, parentR, root, replica, replicas, count, taken,
                                       leaves);
            |out| == |under| && taken <= out && leaves <= under
    decreases Left(replicas, replica)
  {
    hide Search, Usable;
    if replica < replicas && count > 0 {
      match Search(w, e, seed, kind, leafward, replica + parentR, taken, leaves, root, root, 0, 0)
      case Skipped =>
        Prefixes(w, e, seed, kind, leafward, parentR, root, replica + 1, replicas, count, taken, leaves);
      case Found(item, leaf) =>
        Prefixes(w, e, seed, kind, leafward, parentR, root, replica + 1, replicas, count - 1, taken + [item],
                 leaves + [leaf]);
    }
  }

  /** First-n goes through the replicas in order, until all have been searched for or enough have been
      placed, and places exactly those whose search succeeds. */
  lemma {:induction false} FirstNPlaces(w: World, e: Effort, seed: Word, kind: int, leafward: bool, parentR: nat,
                                        root: int, replica: nat, replicas: nat, count: nat,
                                        taken: seq<int>, leaves: seq<int>)
    returns (placed: seq<nat>, upto: nat)
    requires Usable(w.g) && root in w.g.buckets && Plain(e) && |leaves| == |taken| && replica <= replicas
    ensures var (out, under) := FirstN(w, e, seed, kind, leafward, parentR, root, replica, replicas, count, taken,
                                       leaves);
            && Placements(w, e, seed, kind, leafward, parentR, root, replica, upto, |taken|, out, under, placed)
            && replica <= upto <= replicas && |placed| <= count && (upto < replicas ==> |placed| == count)
    decreases Left(replicas, replica)
  {
    hide Search, Usable, Succeeds, GivesUp;
    if replica >= replicas || count == 0 {
      placed, upto := [], replica;
    } else {
      var q := Quest(w, e, seed, kind, leafward, replica + parentR, taken, leaves, root);
      SearchIsLeast(q);
      Prefixes(w, e, seed, kind, leafward, parentR, root, replica, replicas, count, taken, leaves);
      match Sought(q)
      case Skipped => {
        placed, upto := FirstNPlaces(w, e, seed, kind, leafward, parentR, root, replica + 1, replicas, count, taken,
                                     leaves);
        var (out, under) := FirstN(w, e, seed, kind, leafward, parentR, root, replica, replicas, count, taken, leaves);
        assert out[..|taken|] == taken && under[..|taken|] == leaves;
        OneGaveUp(w, e, seed, kind, leafward, parentR, root, replica, upto, |taken|, out, under, placed);
      }
      case Found(item, leaf) => {
        var more;
        more, upto := FirstNPlaces(w, e, seed, kind, leafward, parentR, root, replica + 1, replicas, count - 1,
                                   taken + [item], leaves + [leaf]);
        placed := [replica] + more;
        var (out, under) := FirstN(w, e, seed, kind, leafward, parentR, root, replica, replicas, count, taken, leaves);
        Prefixes(w, e, seed, kind, leafward, parentR, root, replica + 1, replicas, count - 1, taken + [item],
                 leaves + [leaf]);
        assert out[..|taken|] == taken && under[..|taken|] == leaves;
        assert out[|taken|] == item && under[|taken|] == leaf;
        OneMorePlaced(w, e, seed, kind, leafward, parentR, root, replica, upto, |taken|, out, under, more);
      }
    }
  }

  lemma OneGaveUp(w: World, e: Effort, seed: Word, kind: int, leafward: bool, parentR: nat, root: int,
                  replica: nat, upto: nat, start: nat, out: seq<int>, under: seq<int>, placed: seq<nat>)
    requires Usable(w.g) && root in w.g.buckets && replica < upto && start <= |out| && |out| == |under|
    requires Placements(w, e, seed, kind, leafward, parentR, root, replica + 1, upto, start, out, under, placed)
    requires GivesUp(ForReplica(w, e, seed, kind, leafward, parentR, root, replica, out, under, start))
    ensures Placements(w, e, seed, kind, leafward, parentR, root, replica, upto, start, out, under, placed)
  {
    hide Usable, Succeeds, GivesUp;
    forall j, n | replica <= j < upto && 0 <= n <= |placed| && Between(placed, n, j)
      ensures GivesUp(ForReplica(w, e, seed, kind, leafward, parentR, root, j, out, under, start + n))
    {
      assert j == replica ==> n == 0;
    }
  }

  lemma OneMorePlaced(w: World, e: Effort, seed: Word, kind: int, leafward: bool, parentR: nat, root: int,
                      replica: nat, upto: nat, start: nat, out: seq<int>, under: seq<int>, more: seq<nat>)
    requires Usable(w.g) && root in w.g.buckets && replica < upto && start < |out| && |out| == |under|
    requires Placements(w, e, seed, kind, leafward, parentR, root, replica + 1, upto, start + 1, out, under, more)
    requires Succeeds(ForReplica(w, e, seed, kind, leafward, parentR, root, replica, out, under, start), out[start],
                      under[start])
    ensures Placements(w, e, seed, kind, leafward, parentR, root, replica, upto, start, out, under, [replica] + more)
  {
    hide Usable, Succeeds, GivesUp;
    var placed := [replica] + more;
    forall n | 0 <= n < |placed|
      ensures Succeeds(ForReplica(w, e, seed, kind, leafward, parentR, root, placed[n], out, under, start + n),
                       out[start + n], under[start + n])
    {
      if n > 0 { assert placed[n] == more[n - 1] && start + n == start + 1 + (n - 1); }
    }
    forall j, n | replica <= j < upto && 0 <= n <= |placed| && Between(placed, n, j)
      ensures GivesUp(ForReplica(w, e, seed, kind, leafward, parentR, root, j, out, under, start + n))
    {
      assert n > 0;
      assert Between(more, n - 1, j);
      assert start + n == start + 1 + (n - 1);
    }
  }

  /** Some replica is not among those placed when there are fewer of them. */
  lemma {:induction false} SomeLeftOut(placed: seq<nat>, first: nat, upto: nat) returns (j: nat, n: nat)
    requires first <= upto && |placed| < upto - first
    requires forall n :: 0 <= n < |placed| ==> first <= placed[n] < upto
    requires forall n, m :: 0 <= n < m < |placed| ==> placed[n] < placed[m]
    ensures first <= j < upto && n <= |placed| && Between(placed, n, j)
    decreases |placed|
  {
    if placed == [] || placed[0] > first {
      j, n := first, 0;
    } else {
      var k;
      j, k := SomeLeftOut(placed[1..], first + 1, upto);
      n := k + 1;
      assert k > 0 ==> placed[1..][k - 1] == placed[k];
    }
  }

  /** The effort of certified rules. */
  const CERTIFIED_EFFORT := CrushRules.EffortOf(CrushRules.CERTIFIED, 51)

  /** A certified replicated rule places fewer devices than asked for only if some replica's search
      gave up: all its 51 descents missed, or the first that did not led nowhere. */
  lemma ShortOnlyIf(w: World, rule: CrushRules.Rule, seed: Word, replicas: nat)
    returns (j: nat, items: seq<int>, devices: seq<int>)
    requires Usable(w.g) && CrushRules.CertifiedShape(w.g, rule) && rule.kind == CrushRules.REPLICATED
    requires CrushRules.TakeRoot(w.g, rule) in w.g.buckets && replicas > 0
    ensures var placed := CrushRules.RunSteps(w, CrushRules.CERTIFIED, seed, replicas, rule.steps,
                                              CrushRules.Start(CrushRules.CERTIFIED));
            var root, choose := CrushRules.TakeRoot(w.g, rule), rule.steps[1];
            placed.Devices? && (|placed.items| < replicas ==>
              && j < replicas && |items| == |devices| <= |placed.items|
              && CERTIFIED_EFFORT.tries == 51 && CERTIFIED_EFFORT.leafTries == 1
              && (choose.operation == CrushRules.CHOOSELEAF_FIRST_N ==> devices <= placed.items)
              && (choose.operation != CrushRules.CHOOSELEAF_FIRST_N ==> items <= placed.items)
              && GivesUp(Quest(w, CERTIFIED_EFFORT, seed, choose.argument2,
                               choose.operation == CrushRules.CHOOSELEAF_FIRST_N, j, items, devices, root)))
  {
    hide FirstN, Usable, GivesUp, Placements, CrushRules.HasKind;
    var root, choose := CrushRules.TakeRoot(w.g, rule), rule.steps[1];
    CrushRules.FiledRoot(w.g, root);
    CrushRules.ThreeSteps(w, seed, replicas, rule.steps);
    CrushRules.OneRoot(w, 51, 0, seed, replicas, choose, root);
    var leafward := choose.operation == CrushRules.CHOOSELEAF_FIRST_N;
    var numbers, upto := FirstNPlaces(w, CERTIFIED_EFFORT, seed, choose.argument2, leafward, 0, root, 0, replicas,
                                      replicas, [], []);
    var (out, under) := FirstN(w, CERTIFIED_EFFORT, seed, choose.argument2, leafward, 0, root, 0, replicas, replicas,
                               [], []);
    j, items, devices := WhoGaveUp(w, CERTIFIED_EFFORT, seed, choose.argument2, leafward, root, upto, out, under,
                                   numbers);
  }

  lemma WhoGaveUp(w: World, e: Effort, seed: Word, kind: int, leafward: bool, root: int, upto: nat,
                  out: seq<int>, under: seq<int>, placed: seq<nat>)
    returns (j: nat, items: seq<int>, devices: seq<int>)
    requires Usable(w.g) && root in w.g.buckets
    requires Placements(w, e, seed, kind, leafward, 0, root, 0, upto, 0, out, under, placed)
    ensures |out| == |placed| == |under|
    ensures |placed| < upto ==>
              && j < upto && items <= out && devices <= under && |items| == |devices|
              && GivesUp(Quest(w, e, seed, kind, leafward, j, items, devices, root))
  {
    hide Usable, GivesUp, Succeeds;
    j, items, devices := 0, [], [];
    if |placed| < upto {
      var n;
      j, n := SomeLeftOut(placed, 0, upto);
      items, devices := out[..n], under[..n];
    }
  }

  // ---------------------------------------------------------------- indep

  function AsProbe(trial: Trial): Probe {
    match trial
    case Hit(item, leaf) => Filled(item, leaf)
    case Miss => Missed
    case DeadEnd => Dead
  }

  /** An indep descent without leaves is the same descent. */
  lemma {:induction false} DescendIsAttempt(w: World, e: Effort, seed: Word, aim: Aim, place: nat, r: nat,
                                            items: seq<int>, at: int)
    requires Usable(w.g) && at in w.g.buckets && !aim.leafward
    ensures Descend(w, seed, aim, place, r, items, at) ==
            AsProbe(Attempt(w, e, seed, aim.kind, false, r, items, [], at))
    decreases Rank(w.g, at)
  {
    hide Straw, IsOut;
    var bucket := w.g.buckets[at];
    if bucket.items != [] {
      var item := Straw(w, bucket, seed, r);
      if item < 0 && item in w.g.buckets && KindOf(w, item) != aim.kind {
        RankFalls(w.g, at, item);
        DescendIsAttempt(w, e, seed, aim, place, r, items, item);
      }
    }
  }

  /** In a usable graph a descent for devices leads nowhere never. */
  lemma {:induction false} DevicesNeverDead(w: World, seed: Word, aim: Aim, place: nat, r: nat, items: seq<int>,
                                            at: int)
    requires Usable(w.g) && at in w.g.buckets && aim.kind == 0 && w.g.maxDevices >= 0
    ensures !Descend(w, seed, aim, place, r, items, at).Dead?
    decreases Rank(w.g, at)
  {
    hide LeafBelow, IsOut;
    var bucket := w.g.buckets[at];
    if bucket.items != [] {
      var item := Straw(w, bucket, seed, r);
      UsableItem(w.g, at, item);
      if item < 0 && KindOf(w, item) != 0 {
        RankFalls(w.g, at, item);
        DevicesNeverDead(w, seed, aim, place, r, items, item);
      }
    }
  }

  lemma UsableItem(g: Graph, at: int, item: int)
    requires Usable(g) && at in g.buckets && item in g.buckets[at].items && g.maxDevices >= 0
    ensures item < g.maxDevices && (item < 0 ==> item in g.buckets)
  {
    assert ItemsOk(g, g.buckets[at].items);
    var i :| 0 <= i < |g.buckets[at].items| && g.buckets[at].items[i] == item;
  }

  /** The same positions with some of them not filled yet. */
  predicate Partial(items: seq<int>, out: seq<int>) {
    |items| == |out| && forall i :: 0 <= i < |items| ==> items[i] == NONE || items[i] == out[i]
  }

  function Empties(items: seq<int>): nat {
    if items == [] then 0 else Empties(items[..|items| - 1]) + if items[|items| - 1] == NONE then 1 else 0
  }

  lemma {:induction false} OneFilled(items: seq<int>, p: nat, item: int)
    requires p < |items| && items[p] == NONE && item != NONE
    ensures Empties(items[p := item]) == Empties(items) - 1
  {
    var n := |items| - 1;
    if p < n {
      OneFilled(items[..n], p, item);
      assert items[p := item][..n] == items[..n][p := item];
    } else {
      assert items[p := item][..n] == items[..n];
    }
  }

  lemma {:induction false} SomeEmpty(items: seq<int>, p: nat)
    requires p < |items| && items[p] == NONE
    ensures Empties(items) > 0
  {
    if p < |items| - 1 { SomeEmpty(items[..|items| - 1], p); }
  }

  /** The descent for position `p` in pass `f`, with these positions filled. */
  ghost function PassOf(w: World, seed: Word, aim: Aim, from: nat, parentR: nat, root: int, f: nat, p: nat,
                        items: seq<int>): Probe
    requires Usable(w.g) && root in w.g.buckets
  {
    Descend(w, seed, aim, from + p, from + p + parentR + aim.stride * f, items, root)
  }

  /** In pass `f` the descent for position `p` missed. */
  ghost predicate MissedIn(w: World, seed: Word, aim: Aim, from: nat, parentR: nat, root: int, f: nat, p: nat,
                           out: seq<int>)
    requires Usable(w.g) && root in w.g.buckets
  {
    exists items :: Partial(items, out) && PassOf(w, seed, aim, from, parentR, root, f, p, items) == Missed
  }

  /** In pass `f` the descent for position `p`, which was empty, filled it. */
  ghost predicate FilledIn(w: World, seed: Word, aim: Aim, from: nat, parentR: nat, root: int, f: nat, p: nat,
                           out: seq<int>)
    requires Usable(w.g) && root in w.g.buckets && p < |out|
  {
    exists items, leaf :: Partial(items, out) && items[p] == NONE
      && PassOf(w, seed, aim, from, parentR, root, f, p, items) == Filled(out[p], leaf)
  }

  lemma PartialOn(a: seq<int>, b: seq<int>, c: seq<int>)
    requires Partial(a, b) && Partial(b, c)
    ensures Partial(a, c)
  {
  }

  lemma MissedOn(w: World, seed: Word, aim: Aim, from: nat, parentR: nat, root: int, f: nat, p: nat,
                 mid: seq<int>, out: seq<int>)
    requires Usable(w.g) && root in w.g.buckets && Partial(mid, out)
    requires MissedIn(w, seed, aim, from, parentR, root, f, p, mid)
    ensures MissedIn(w, seed, aim, from, parentR, root, f, p, out)
  {
    hide PassOf, Usable;
    var items :| Partial(items, mid) && PassOf(w, seed, aim, from, parentR, root, f, p, items) == Missed;
    PartialOn(items, mid, out);
  }

  lemma FilledOn(w: World, seed: Word, aim: Aim, from: nat, parentR: nat, root: int, f: nat, p: nat,
                 mid: seq<int>, out: seq<int>)
    requires Usable(w.g) && root in w.g.buckets && Partial(mid, out) && p < |mid| && mid[p] != NONE
    requires FilledIn(w, seed, aim, from, parentR, root, f, p, mid)
    ensures FilledIn(w, seed, aim, from, parentR, root, f, p, out)
  {
    hide PassOf, Usable;
    var items, leaf :| Partial(items, mid) && items[p] == NONE
      && PassOf(w, seed, aim, from, parentR, root, f, p, items) == Filled(mid[p], leaf);
    PartialOn(items, mid, out);
  }

  /** What one pass does to the positions from `position` on: those that were empty are filled by their
      descent or missed, and nothing else changes. */
  lemma {:induction false} SweepPasses(w: World, seed: Word, aim: Aim, from: nat, parentR: nat, f: nat, root: int,
                                       position: nat, slots: Slots)
    requires Usable(w.g) && root in w.g.buckets && aim.kind == 0 && |slots.leaves| == |slots.items|
    requires slots.left == Empties(slots.items) && w.g.maxDevices >= 0
    ensures var out := Sweep(w, seed, aim, from, parentR, f, root, position, slots);
            && out.left == Empties(out.items) && Partial(slots.items, out.items)
            && forall p :: position <= p < |out.items| && slots.items[p] == NONE ==>
                 if out.items[p] == NONE then MissedIn(w, seed, aim, from, parentR, root, f, p, out.items)
                 else FilledIn(w, seed, aim, from, parentR, root, f, p, out.items)
    decreases Left(|slots.items|, position)
  {
    hide Descend, Usable, MissedIn, FilledIn;
    if position < |slots.items| {
      var next := slots;
      if slots.items[position] == NONE {
        DevicesNeverDead(w, seed, aim, from + position, from + position + parentR + aim.stride * f, slots.items, root);
        DescendGood(w, seed, aim, from + position, from + position + parentR + aim.stride * f, slots.items, root);
        var probe := PassOf(w, seed, aim, from, parentR, root, f, position, slots.items);
        if probe.Filled? {
          assert NONE in slots.items;
          OneFilled(slots.items, position, probe.item);
          next := Slots(slots.items[position := probe.item], slots.leaves[position := probe.leaf], slots.left - 1);
        }
        SweepPasses(w, seed, aim, from, parentR, f, root, position + 1, next);
        var out := Sweep(w, seed, aim, from, parentR, f, root, position + 1, next);
        PartialOn(slots.items, next.items, out.items);
        OnePass(w, seed, aim, from, parentR, root, f, position, slots.items, out.items);
        KeptBefore(w, seed, aim, from, parentR, f, root, position + 1, next);
      } else {
        SweepPasses(w, seed, aim, from, parentR, f, root, position + 1, slots);
      }
    }
  }

  lemma OnePass(w: World, seed: Word, aim: Aim, from: nat, parentR: nat, root: int, f: nat, p: nat,
                items: seq<int>, out: seq<int>)
    requires Usable(w.g) && root in w.g.buckets && p < |items| && items[p] == NONE && Partial(items, out)
    requires match PassOf(w, seed, aim, from, parentR, root, f, p, items)
             case Filled(item, _) => out[p] == item
             case Missed => true
             case Dead => false
    ensures PassOf(w, seed, aim, from, parentR, root, f, p, items) == Missed ==>
              MissedIn(w, seed, aim, from, parentR, root, f, p, out)
    ensures PassOf(w, seed, aim, from, parentR, root, f, p, items).Filled? ==>
              FilledIn(w, seed, aim, from, parentR, root, f, p, out)
  {
    hide PassOf, Usable;
  }

  lemma {:induction false} KeptBefore(w: World, seed: Word, aim: Aim, from: nat, parentR: nat, f: nat, root: int,
                                      position: nat, slots: Slots)
    requires Usable(w.g) && root in w.g.buckets && |slots.leaves| == |slots.items|
    ensures var out := Sweep(w, seed, aim, from, parentR, f, root, position, slots);
            forall p :: 0 <= p < position && p < |slots.items| ==> out.items[p] == slots.items[p]
    decreases Left(|slots.items|, position)
  {
    hide Descend, Usable;
    if position < |slots.items| {
      if slots.items[position] != NONE {
        KeptBefore(w, seed, aim, from, parentR, f, root, position + 1, slots);
      } else {
        var place := from + position;
        match Descend(w, seed, aim, place, place + parentR + aim.stride * f, slots.items, root)
        case Filled(item, leaf) =>
          var next := Slots(slots.items[position := item], slots.leaves[position := leaf], slots.left - 1);
          KeptBefore(w, seed, aim, from, parentR, f, root, position + 1, next);
          assert forall p :: 0 <= p < position ==> next.items[p] == slots.items[p];
        case Missed => KeptBefore(w, seed, aim, from, parentR, f, root, position + 1, slots);
        case Dead => KeptBefore(w, seed, aim, from, parentR, f, root, position + 1, slots.(left := slots.left - 1));
      }
    }
  }

  /** A position that indep leaves empty was missed in every pass it may make; one that it fills was
      filled by its first pass that did not miss. */
  lemma {:induction false} IndepPasses(w: World, seed: Word, aim: Aim, from: nat, parentR: nat, tries: nat,
                                       failure: nat,
                                       root: int, slots: Slots, p: nat) returns (filled: nat)
    requires Usable(w.g) && root in w.g.buckets && aim.kind == 0 && |slots.leaves| == |slots.items|
    requires w.g.maxDevices >= 0 && slots.left == Empties(slots.items) && p < |slots.items| && slots.items[p] == NONE
    ensures var out := Indep(w, seed, aim, from, parentR, tries, failure, root, slots);
            && Partial(slots.items, out.items)
            && (out.items[p] == NONE ==>
                  forall f :: failure <= f < tries ==> MissedIn(w, seed, aim, from, parentR, root, f, p, out.items))
            && (out.items[p] != NONE ==>
                  && failure <= filled < tries && FilledIn(w, seed, aim, from, parentR, root, filled, p, out.items)
                  && forall f :: failure <= f < filled ==> MissedIn(w, seed, aim, from, parentR, root, f, p, out.items))
    decreases Left(tries, failure)
  {
    hide Sweep, Usable, MissedIn, FilledIn;
    SomeEmpty(slots.items, p);
    filled := failure;
    if failure < tries {
      SweepPasses(w, seed, aim, from, parentR, failure, root, 0, slots);
      var swept := Sweep(w, seed, aim, from, parentR, failure, root, 0, slots);
      var out := Indep(w, seed, aim, from, parentR, tries, failure + 1, root, swept);
      if swept.items[p] == NONE {
        filled := IndepPasses(w, seed, aim, from, parentR, tries, failure + 1, root, swept, p);
        MissedOn(w, seed, aim, from, parentR, root, failure, p, swept.items, out.items);
      } else {
        FilledKept(w, seed, aim, from, parentR, tries, failure + 1, root, swept);
        FilledOn(w, seed, aim, from, parentR, root, failure, p, swept.items, out.items);
      }
      PartialOn(slots.items, swept.items, out.items);
    }
  }

  lemma {:induction false} FilledKept(w: World, seed: Word, aim: Aim, from: nat, parentR: nat, tries: nat, failure: nat,
                                      root: int, slots: Slots)
    requires Usable(w.g) && root in w.g.buckets && aim.kind == 0 && |slots.leaves| == |slots.items|
    requires slots.left == Empties(slots.items) && w.g.maxDevices >= 0
    ensures Partial(slots.items, Indep(w, seed, aim, from, parentR, tries, failure, root, slots).items)
    decreases Left(tries, failure)
  {
    hide Sweep, Usable;
    if slots.left > 0 && failure < tries {
      SweepPasses(w, seed, aim, from, parentR, failure, root, 0, slots);
      var swept := Sweep(w, seed, aim, from, parentR, failure, root, 0, slots);
      FilledKept(w, seed, aim, from, parentR, tries, failure + 1, root, swept);
      PartialOn(slots.items, swept.items, Indep(w, seed, aim, from, parentR, tries, failure + 1, root, swept).items);
    }
  }

  lemma {:induction false} AllAreEmpty(count: nat)
    ensures Empties(Empty(count)) == count
  {
    if count > 0 {
      AllAreEmpty(count - 1);
      assert Empty(count)[..count - 1] == Empty(count - 1);
    }
  }

  /** A certified erasure rule leaves a position empty only if all its 100 descents missed; otherwise the position
      holds what its first descent that did not miss found. Pass `f` searches for position `p` with replica
      number `p + replicas * f`. */
  lemma HoleOnlyIf(w: World, rule: CrushRules.Rule, seed: Word, replicas: nat, p: nat) returns (filled: nat)
    requires Usable(w.g) && CrushRules.CertifiedShape(w.g, rule) && rule.kind != CrushRules.REPLICATED
    requires CrushRules.TakeRoot(w.g, rule) in w.g.buckets && p < replicas && w.g.maxDevices >= 0
    ensures var placed := CrushRules.RunSteps(w, CrushRules.CERTIFIED, seed, replicas, rule.steps,
                                              CrushRules.Start(CrushRules.CERTIFIED));
            && placed.Devices? && |placed.items| == replicas
            && (placed.items[p] == NONE ==>
                  forall f :: 0 <= f < 100 ==>
                    MissedIn(w, seed, Aim(0, false, 5, replicas), 0, 0, CrushRules.TakeRoot(w.g, rule), f, p,
                             placed.items))
            && (placed.items[p] != NONE ==>
                  && filled < 100
                  && FilledIn(w, seed, Aim(0, false, 5, replicas), 0, 0, CrushRules.TakeRoot(w.g, rule), filled, p,
                              placed.items)
                  && forall f :: 0 <= f < filled ==>
                    MissedIn(w, seed, Aim(0, false, 5, replicas), 0, 0, CrushRules.TakeRoot(w.g, rule), f, p,
                             placed.items))
  {
    hide Indep, Usable, MissedIn, FilledIn, CrushRules.ChooseAll;
    var root := CrushRules.TakeRoot(w.g, rule);
    CrushRules.FiledRoot(w.g, root);
    CrushRules.FiveSteps(w, seed, replicas, rule.steps);
    CrushRules.OneRoot(w, 100, 5, seed, replicas, rule.steps[3], root);
    AllAreEmpty(replicas);
    filled := IndepPasses(w, seed, Aim(0, false, 5, replicas), 0, 0, 100, 0, root, AllEmpty(replicas), p);
  }

  // ---------------------------------------------------------------- leaf searches

  function PowerOfTwo(n: nat): (p: nat)
    ensures p > 0
  {
    if n == 0 then 1 else 2 * PowerOfTwo(n - 1)
  }

  lemma {:induction false} ShiftIs(r: nat, bits: nat)
    ensures Shift(r, bits) == r / PowerOfTwo(bits)
  {
    if bits > 0 {
      ShiftIs(r / 2, bits - 1);
      DivTwice(r, PowerOfTwo(bits - 1));
    }
  }

  lemma DivTwice(r: nat, p: nat)
    requires p > 0
    ensures r / 2 / p == r / (2 * p)
  {
    var q, m := r / (2 * p), r % (2 * p);
    assert r == 2 * p * q + m;
    assert r / 2 == p * q + m / 2 by { assert r == 2 * (p * q) + m; }
    var s := m / 2;
    assert 0 <= s < p;
    assert (p * q + s) / p == q by { QuotientIs(p, q, s); }
  }

  lemma QuotientIs(p: nat, q: nat, s: nat)
    requires s < p
    ensures (p * q + s) / p == q
  {
    var x := p * q + s;
    var d, m := x / p, x % p;
    assert x == p * d + m && 0 <= m < p;
    assert p * (d - q) == s - m;
    SmallMultiple(p, d - q);
  }

  lemma SmallMultiple(p: int, k: int)
    requires 0 - p < p * k < p
    ensures k == 0
  {
    assert k >= 1 ==> p * k >= p;
    assert k <= -1 ==> p * k <= 0 - p;
  }

  /** The leaf of a replica is searched for with numbers from the replica's own number, divided by a power of
      two, on; unstable maps add the position. Certified maps use the number itself. */
  lemma LeafBaseIs(e: Effort, r: nat, position: nat)
    ensures LeafBase(e, r, position) ==
              (if e.stable then 0 else position) + (if e.varyR == 0 then 0 else r / PowerOfTwo(e.varyR - 1))
    ensures e.stable && e.varyR == 1 ==> LeafBase(e, r, position) == r
  {
    if e.varyR > 0 { ShiftIs(r, e.varyR - 1); }
  }

  // ---------------------------------------------------------------- being out

  /** A device that the weights do not have, or with weight zero, is out; one with full weight is in;
      in between its draw decides. */
  lemma OutIs(w: World, item: int, seed: Word)
    ensures item < 0 || item >= |w.weights| ==> IsOut(w, item, seed)
    ensures 0 <= item < |w.weights| && w.weights[item] == 0 ==> IsOut(w, item, seed)
    ensures 0 <= item < |w.weights| && w.weights[item] >= 0x1_0000 ==> !IsOut(w, item, seed)
    ensures 0 <= item < |w.weights| && 0 < w.weights[item] < 0x1_0000 ==>
              (IsOut(w, item, seed) <==> w.mixer.pair(seed, AsWord(item)) % 0x1_0000 >= w.weights[item])
  {
  }
}
