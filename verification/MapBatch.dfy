/** How a batch of full maps and incremental updates from a monitor is applied. */
module MapBatch {
  import opened Common
  import opened Straw2
  import opened Incremental
  import opened CopyOnWrite

  const GENERATIONS := 0x1_0000_0000_0000_0000

  datatype Batch = Batch(fsid: int, fulls: map<Word, seq<int>>, changes: map<Word, seq<int>>, newest: Word, trim: Word)

  /** The decoders of full maps and of updates. */
  datatype Codec = Codec(full: seq<int> -> Option<Flat>, change: seq<int> -> Option<Change>)

  /** What decoding guarantees: vectors of one length and inverse names; updates as they come. */
  ghost predicate Sound(k: Codec) {
    && (forall data :: k.full(data).Some? ==> Good(k.full(data).value))
    && (forall data :: k.change(data).Some? ==> Decoded(k.change(data).value))
  }

  /** What the client exposes about one OSD. */
  datatype OsdState = OsdState(exists_: bool, up: bool, in_: bool, destroyed: bool)

  const DESTROYED: Flags := 0x80

  function Exists(flags: Flags): bool { flags & EXISTS != 0 }
  function IsUp(flags: Flags): bool { flags & UP != 0 }
  function IsDestroyed(flags: Flags): bool { flags & DESTROYED != 0 }

  function StateOf(f: Flat, osd: int): (r: Option<OsdState>) {
    if osd < 0 || osd >= |f.states| then None
    else Some(OsdState(Exists(f.states[osd]), IsUp(f.states[osd]), osd < |f.weights|
                       && f.weights[osd] != 0, IsDestroyed(f.states[osd])))
  }

  function Max(a: nat, b: nat): nat { if a > b then a else b }

  /** OSDs whose exposed state differs between two maps. */
  function Transitions(before: Flat, after: Flat): set<int> {
    Differing(before, after, Max(before.head.maxOsd, after.head.maxOsd))
  }

  function Differing(before: Flat, after: Flat, n: nat): set<int> {
    set osd | 0 <= osd < n && StateOf(before, osd) != StateOf(after, osd)
  }

  lemma OneMoreDiffers(before: Flat, after: Flat, osd: nat)
    ensures Differing(before, after, osd + 1) ==
            Differing(before, after, osd) + if StateOf(before, osd) != StateOf(after, osd) then {osd} else {}
  {
    hide StateOf;
  }

  function UpTo(n: nat): (s: set<int>)
    ensures forall osd :: osd in s <==> 0 <= osd < n
  {
    if n == 0 then {} else UpTo(n - 1) + {n - 1}
  }

  function AllOsds(before: Flat, after: Flat): set<int> { UpTo(Max(before.head.maxOsd, after.head.maxOsd)) }

  // ---------------------------------------------------------------- a batch as a function

  /** The current map, the maps that led to it, and the OSDs they may have changed. */
  datatype Progress = At(current: Option<Flat>, steps: seq<Flat>, changed: set<int>) | Fault

  predicate Stale(current: Option<Flat>, epoch: Word) { current.Some? && epoch <= current.value.head.epoch }

  function OneFull(k: Codec, b: Batch, p: Progress, epoch: Word): (q: Progress)
    requires p.At? && epoch in b.fulls
  {
    if Stale(p.current, epoch) then p
    else match k.full(b.fulls[epoch])
      case None => Fault
      case Some(f) =>
        if f.head.epoch != epoch || f.head.fsid != b.fsid then Fault
        else At(Some(f), p.steps + [f], p.changed + (if p.current.Some? then AllOsds(p.current.value, f) else {}))
  }

  /** What one update may lead to. With clashing renames it may succeed or fail. */
  ghost predicate OneChange(k: Codec, b: Batch, p: Progress, epoch: Word, q: Progress)
    requires Sound(k) && p.At? && epoch in b.changes
  {
    if Stale(p.current, epoch) then q == p
    else if p.current.None? || epoch != (p.current.value.head.epoch + 1) % 0x1_0000_0000 then q == Fault
    else match k.change(b.changes[epoch])
      case None => q == Fault
      case Some(c) =>
        if c.epoch != epoch || c.fsid != b.fsid then q == Fault
        else if q.Fault? then Outcome(k.full, p.current.value, c, None)
        else
          && q.current.Some? && Outcome(k.full, p.current.value, c, q.current)
          && q == At(q.current, p.steps + [q.current.value], p.changed + Transitions(p.current.value, q.current.value))
  }

  ghost predicate Within(epochs: seq<Word>, keys: set<Word>) { forall i :: 0 <= i < |epochs| ==> epochs[i] in keys }

  ghost function Fulls(k: Codec, b: Batch, p: Progress, epochs: seq<Word>): (q: Progress)
    requires Within(epochs, b.fulls.Keys)
    decreases |epochs|
  {
    if epochs == [] || p.Fault? then p else Fulls(k, b, OneFull(k, b, p, epochs[0]), epochs[1..])
  }

  ghost predicate Changes(k: Codec, b: Batch, p: Progress, epochs: seq<Word>, q: Progress)
    requires Sound(k) && Within(epochs, b.changes.Keys)
    decreases |epochs|
  {
    if epochs == [] then q == p
    else
      var last := |epochs| - 1;
      exists m :: Changes(k, b, p, epochs[..last], m) && if m.Fault? then q == m
          else OneChange(k, b, m, epochs[last], q)
  }

  /** The batch must reach the newest map it speaks of and the trim bound. */
  predicate Reaches(b: Batch, current: Option<Flat>) {
    && (b.newest != 0 ==> current.Some? && current.value.head.epoch >= b.newest)
    && (b.trim != 0 && current.Some? ==> current.value.head.epoch >= b.trim)
  }

  ghost predicate Run(k: Codec, b: Batch, current: Option<Flat>, fulls: seq<Word>, changes: seq<Word>, q: Progress)
    requires Sound(k) && Within(fulls, b.fulls.Keys) && Within(changes, b.changes.Keys)
  {
    exists p :: Changes(k, b, Fulls(k, b, At(current, [], {}), fulls), changes, p)
                && q == if p.At? && Reaches(b, p.current) then p else Fault
  }

  // ---------------------------------------------------------------- what a batch does

  /** The map before a step. */
  function Before(start: Option<Flat>, steps: seq<Flat>, i: nat): Option<Flat>
    requires i <= |steps|
  {
    if i == 0 then start else Some(steps[i - 1])
  }

  /** A step takes a full map of the batch that is newer, or the next update of the batch. */
  ghost predicate FullStep(k: Codec, b: Batch, before: Option<Flat>, after: Flat) {
    && after.head.epoch in b.fulls && k.full(b.fulls[after.head.epoch]) == Some(after) && after.head.fsid == b.fsid
    && (before.Some? ==> before.value.head.epoch < after.head.epoch)
  }

  ghost predicate ChangeStep(k: Codec, b: Batch, before: Option<Flat>, after: Flat)
    requires Sound(k)
  {
    && before.Some? && after.head.epoch == before.value.head.epoch + 1 && after.head.epoch in b.changes
    && k.change(b.changes[after.head.epoch]).Some?
    && var c := k.change(b.changes[after.head.epoch]).value;
    c.epoch == after.head.epoch && c.fsid == b.fsid && Outcome(k.full, before.value, c, Some(after))
  }

  /** Full maps first, then consecutive updates, each leading to the next epoch. */
  ghost predicate Steps(k: Codec, b: Batch, start: Option<Flat>, steps: seq<Flat>, fulls: nat)
    requires Sound(k)
  {
    && fulls <= |steps|
    && (forall i :: 0 <= i < fulls ==> FullStep(k, b, Before(start, steps, i), steps[i]))
    && (forall i :: fulls <= i < |steps| ==> ChangeStep(k, b, Before(start, steps, i), steps[i]))
  }

  /** Every OSD that is not among the changed ones has kept its state through every step. */
  ghost predicate Traced(start: Option<Flat>, steps: seq<Flat>, changed: set<int>) {
    forall i, osd {:trigger StateOf(steps[i], osd)} ::
        0 <= i < |steps| && osd !in changed && Before(start, steps, i).Some? ==>
        StateOf(steps[i], osd) == StateOf(Before(start, steps, i).value, osd)
  }

  ghost predicate AllGood(start: Option<Flat>, steps: seq<Flat>) {
    (start.Some? ==> Good(start.value)) && forall i :: 0 <= i < |steps| ==> Good(steps[i])
  }

  ghost predicate Consistent(k: Codec, b: Batch, start: Option<Flat>, p: Progress, fulls: nat)
    requires Sound(k)
  {
    p.At? ==>
      && p.current == Before(start, p.steps, |p.steps|)
      && Steps(k, b, start, p.steps, fulls) && Traced(start, p.steps, p.changed) && AllGood(start, p.steps)
  }

  lemma StateOutside(f: Flat, osd: int)
    requires Vectors(f) && !(0 <= osd < f.head.maxOsd)
    ensures StateOf(f, osd) == None
  {
  }

  lemma TransitionsCover(before: Flat, after: Flat, osd: int)
    requires Vectors(before) && Vectors(after) && osd !in Transitions(before, after)
    ensures StateOf(before, osd) == StateOf(after, osd)
  {
    hide StateOf;
    if !(0 <= osd < Max(before.head.maxOsd, after.head.maxOsd)) { StateOutside(before, osd); StateOutside(after, osd); }
  }

  lemma AllOsdsCover(before: Flat, after: Flat, osd: int)
    requires Vectors(before) && Vectors(after) && osd !in AllOsds(before, after)
    ensures StateOf(before, osd) == StateOf(after, osd)
  {
    hide StateOf;
    StateOutside(before, osd);
    StateOutside(after, osd);
  }

  lemma Extend(start: Option<Flat>, steps: seq<Flat>, changed: set<int>, f: Flat, more: set<int>)
    requires Traced(start, steps, changed) && AllGood(start, steps) && Good(f)
    requires Before(start, steps, |steps|).Some? ==>
               forall osd :: osd !in more ==> StateOf(Before(start, steps, |steps|).value, osd) == StateOf(f, osd)
    ensures Traced(start, steps + [f], changed + more) && AllGood(start, steps + [f])
  {
    hide StateOf;
    var longer := steps + [f];
    forall i, osd | 0 <= i < |longer| && osd !in changed + more && Before(start, longer, i).Some?
      ensures StateOf(longer[i], osd) == StateOf(Before(start, longer, i).value, osd)
    {
      if i < |steps| {
        assert longer[i] == steps[i] && Before(start, longer, i) == Before(start, steps, i);
      } else {
        assert Before(start, longer, i) == Before(start, steps, |steps|);
      }
    }
  }

  lemma BeforeSame(start: Option<Flat>, steps: seq<Flat>, f: Flat, i: nat)
    requires i <= |steps|
    ensures Before(start, steps + [f], i) == Before(start, steps, i)
  {
  }

  lemma FullExtends(k: Codec, b: Batch, start: Option<Flat>, steps: seq<Flat>, f: Flat)
    requires Sound(k) && Steps(k, b, start, steps, |steps|) && FullStep(k, b, Before(start, steps, |steps|), f)
    ensures Steps(k, b, start, steps + [f], |steps| + 1)
  {
    hide FullStep, Before;
    var longer := steps + [f];
    forall i | 0 <= i < |longer| ensures FullStep(k, b, Before(start, longer, i), longer[i]) {
      BeforeSame(start, steps, f, i);
      assert i < |steps| ==> longer[i] == steps[i];
    }
  }

  lemma ChangeExtends(k: Codec, b: Batch, start: Option<Flat>, steps: seq<Flat>, fulls: nat, f: Flat)
    requires Sound(k) && Steps(k, b, start, steps, fulls) && ChangeStep(k, b, Before(start, steps, |steps|), f)
    ensures Steps(k, b, start, steps + [f], fulls)
  {
    hide FullStep, ChangeStep, Before;
    var longer := steps + [f];
    forall i | 0 <= i < fulls ensures FullStep(k, b, Before(start, longer, i), longer[i]) {
      BeforeSame(start, steps, f, i);
      assert longer[i] == steps[i];
    }
    forall i | fulls <= i < |longer| ensures ChangeStep(k, b, Before(start, longer, i), longer[i]) {
      BeforeSame(start, steps, f, i);
      assert i < |steps| ==> longer[i] == steps[i];
    }
  }

  lemma FullKeeps(k: Codec, b: Batch, start: Option<Flat>, p: Progress, epoch: Word)
    requires Sound(k) && p.At? && epoch in b.fulls && Consistent(k, b, start, p, |p.steps|)
    ensures var q := OneFull(k, b, p, epoch); q.At? ==> Consistent(k, b, start, q, |q.steps|)
  {
    hide Steps, Traced, AllGood, Good, AllOsds;
    var q := OneFull(k, b, p, epoch);
    if q.At? && !Stale(p.current, epoch) {
      var f := q.current.value;
      if p.current.Some? {
        forall osd | osd !in AllOsds(p.current.value, f) ensures StateOf(p.current.value, osd) == StateOf(f, osd) {
          LastGood(start, p.steps);
          GoodVectors(p.current.value);
          GoodVectors(f);
          AllOsdsCover(p.current.value, f, osd);
        }
      }
      Extend(start, p.steps, p.changed, f, if p.current.Some? then AllOsds(p.current.value, f) else {});
      FullExtends(k, b, start, p.steps, f);
    }
  }

  lemma LastGood(start: Option<Flat>, steps: seq<Flat>)
    requires AllGood(start, steps)
    ensures Before(start, steps, |steps|).Some? ==> Good(Before(start, steps, |steps|).value)
  {
  }

  lemma ChangeKeeps(k: Codec, b: Batch, start: Option<Flat>, p: Progress, epoch: Word, fulls: nat, q: Progress)
    requires Sound(k) && p.At? && epoch in b.changes && Consistent(k, b, start, p, fulls)
    requires OneChange(k, b, p, epoch, q)
    ensures Consistent(k, b, start, q, fulls)
  {
    hide Steps, Traced, AllGood, Good, Transitions, Next, Decoded;
    if q.At? && !Stale(p.current, epoch) {
      var f := q.current.value;
      LastGood(start, p.steps);
      GoodVectors(p.current.value);
      GoodVectors(f);
      forall osd | osd !in Transitions(p.current.value, f) ensures StateOf(p.current.value, osd) == StateOf(f, osd) {
        TransitionsCover(p.current.value, f, osd);
      }
      Extend(start, p.steps, p.changed, f, Transitions(p.current.value, f));
      ChangeExtends(k, b, start, p.steps, fulls, f);
    }
  }

  lemma GoodVectors(f: Flat)
    requires Good(f)
    ensures Vectors(f)
  {
  }

  lemma {:induction false} FullsKeep(k: Codec, b: Batch, start: Option<Flat>, p: Progress, epochs: seq<Word>)
    requires Sound(k) && Within(epochs, b.fulls.Keys) && (p.At? ==> Consistent(k, b, start, p, |p.steps|))
    ensures var q := Fulls(k, b, p, epochs); q.At? ==> Consistent(k, b, start, q, |q.steps|)
    decreases |epochs|
  {
    hide Consistent, OneFull;
    if epochs != [] && p.At? {
      FullKeeps(k, b, start, p, epochs[0]);
      FullsKeep(k, b, start, OneFull(k, b, p, epochs[0]), epochs[1..]);
    }
  }

  lemma {:induction false} ChangesKeep(k: Codec, b: Batch, start: Option<Flat>, p: Progress, epochs: seq<Word>,
                                       fulls: nat, q: Progress)
    requires Sound(k) && Within(epochs, b.changes.Keys) && Consistent(k, b, start, p, fulls)
             && Changes(k, b, p, epochs, q)
    ensures Consistent(k, b, start, q, fulls)
    decreases |epochs|
  {
    hide Consistent, OneChange;
    if epochs != [] {
      var last := |epochs| - 1;
      var m :| Changes(k, b, p, epochs[..last], m) && if m.Fault? then q == m else OneChange(k, b, m, epochs[last], q);
      ChangesKeep(k, b, start, p, epochs[..last], fulls, m);
      if m.At? { ChangeKeeps(k, b, start, m, epochs[last], fulls, q); }
    }
  }

  /** A batch that succeeds publishes a full map followed by consecutive updates, and every
      OSD outside the changed set keeps its state through every map on the way. */
  lemma BatchGood(k: Codec, b: Batch, current: Option<Flat>, fulls: seq<Word>, changes: seq<Word>, q: Progress)
    returns (split: nat)
    requires Sound(k) && (current.Some? ==> Good(current.value))
    requires Within(fulls, b.fulls.Keys) && Within(changes, b.changes.Keys) && Run(k, b, current, fulls, changes, q)
    ensures q.At? ==>
              && Reaches(b, q.current) && q.current == Before(current, q.steps, |q.steps|)
              && Steps(k, b, current, q.steps, split) && Traced(current, q.steps, q.changed)
                 && AllGood(current, q.steps)
  {
    hide Fulls, Changes, Steps, Traced;
    var start := At(current, [], {});
    NoSteps(k, b, current);
    FullsKeep(k, b, current, start, fulls);
    var p := Fulls(k, b, start, fulls);
    split := if p.At? then |p.steps| else 0;
    var m :| Changes(k, b, p, changes, m) && q == if m.At? && Reaches(b, m.current) then m else Fault;
    if p.At? { ChangesKeep(k, b, current, p, changes, split, m); } else { FaultStays(k, b, changes, m); }
  }

  lemma {:induction false} FaultStays(k: Codec, b: Batch, epochs: seq<Word>, q: Progress)
    requires Sound(k) && Within(epochs, b.changes.Keys)
    ensures Changes(k, b, Fault, epochs, q) <==> q == Fault
    decreases |epochs|
  {
    if epochs != [] {
      var last := |epochs| - 1;
      forall m ensures Changes(k, b, Fault, epochs[..last], m) <==> m == Fault { FaultStays(k, b, epochs[..last], m); }
    }
  }

  lemma NoSteps(k: Codec, b: Batch, start: Option<Flat>)
    requires Sound(k)
    ensures Steps(k, b, start, [], 0) && Traced(start, [], {})
  {
  }

  /** Published epochs only grow. */
  lemma StepsGrow(k: Codec, b: Batch, start: Option<Flat>, steps: seq<Flat>, fulls: nat, i: nat)
    requires Sound(k) && Steps(k, b, start, steps, fulls) && i < |steps| && Before(start, steps, i).Some?
    ensures Before(start, steps, i).value.head.epoch < steps[i].head.epoch
  {
    if i < fulls { assert FullStep(k, b, Before(start, steps, i), steps[i]); }
    else { assert ChangeStep(k, b, Before(start, steps, i), steps[i]); }
  }

  // ---------------------------------------------------------------- as it runs

  ghost predicate Increasing(s: seq<Word>) { forall i, j :: 0 <= i < j < |s| ==> s[i] < s[j] }

  /** The keys in increasing order. */
  ghost predicate IsSorted(s: seq<Word>, keys: set<Word>) {
    Increasing(s) && forall x :: x in s <==> x in keys
  }

  lemma {:induction false} SortedUnique(a: seq<Word>, b: seq<Word>)
    requires Increasing(a) && Increasing(b) && forall x :: x in a <==> x in b
    ensures a == b
    decreases |a|
  {
    BothEmpty(a, b);
    if a != [] {
      SameHead(a, b);
      forall x ensures x in a[1..] <==> x in b[1..] { TailMember(a, x); TailMember(b, x); }
      SortedUnique(a[1..], b[1..]);
      assert a == [a[0]] + a[1..] && b == [b[0]] + b[1..];
    }
  }

  lemma BothEmpty(a: seq<Word>, b: seq<Word>)
    requires forall x :: x in a <==> x in b
    ensures a == [] <==> b == []
  {
    if |a| > 0 { assert a[0] in a; }
    if |b| > 0 { assert b[0] in b; }
  }

  lemma SameHead(a: seq<Word>, b: seq<Word>)
    requires a != [] && b != [] && Increasing(a) && Increasing(b) && forall x :: x in a <==> x in b
    ensures a[0] == b[0]
  {
    assert a[0] in b && b[0] in a;
    var i :| 0 <= i < |b| && b[i] == a[0];
    var j :| 0 <= j < |a| && a[j] == b[0];
    assert b[0] <= b[i] && a[0] <= a[j];
  }

  lemma TailMember(a: seq<Word>, x: Word)
    requires a != [] && Increasing(a)
    ensures x in a[1..] <==> x in a && x != a[0]
  {
  }

  /** Sorts by taking the least key left. */
  method SortedEpochs(table: map<Word, seq<int>>) returns (s: seq<Word>)
    ensures IsSorted(s, table.Keys)
  {
    s := [];
    var left := table.Keys;
    while left != {}
      invariant left <= table.Keys && Increasing(s) && (forall x :: x in s <==> x in table.Keys && x !in left)
      invariant forall x, y :: x in s && y in left ==> x < y
      decreases |left|
    {
      var least := Least(left);
      assert forall i :: 0 <= i < |s| ==> s[i] in s;
      s := s + [least];
      left := left - {least};
    }
  }

  method Least(keys: set<Word>) returns (least: Word)
    requires keys != {}
    ensures least in keys && forall x :: x in keys ==> least <= x
  {
    least := PickMember(keys);
    var left := keys - {least};
    while left != {}
      invariant left <= keys && least in keys && forall x :: x in keys && x !in left ==> least <= x
      decreases |left|
    {
      var x := PickMember(left);
      if x < least { least := x; }
      left := left - {x};
    }
  }

  /** What a snapshot shows about one OSD. */
  method StateIn(s: Snapshot, osd: int) returns (r: Option<OsdState>)
    ensures r == StateOf(s.Value(), osd)
  {
    if osd < 0 || osd >= |s.states.states| { return None; }
    var flags := s.states.states[osd];
    return Some(OsdState(Exists(flags), IsUp(flags), osd < |s.weights.weights|
                         && s.weights.weights[osd] != 0, IsDestroyed(flags)));
  }

  method CollectTransitions(before: Snapshot, after: Snapshot, changed: set<int>) returns (r: set<int>)
    ensures r == changed + Transitions(before.Value(), after.Value())
  {
    hide StateOf;
    r := changed;
    var osd := 0;
    var n := Max(before.head.maxOsd, after.head.maxOsd);
    ghost var f, g := before.Value(), after.Value();
    assert n == Max(f.head.maxOsd, g.head.maxOsd);
    while osd < n
      invariant 0 <= osd <= n && r == changed + Differing(f, g, osd)
    {
      var was := StateIn(before, osd);
      var is_ := StateIn(after, osd);
      OneMoreDiffers(f, g, osd);
      if was != is_ { r := r + {osd}; }
      osd := osd + 1;
    }
  }

  /** The state of the client: the published map and the generation of every OSD. */
  class Client {
    const k: Codec
    var osdMap: Snapshot?
    var generations: map<int, nat>

    constructor (k: Codec)
      requires Sound(k)
      ensures Valid() && this.k == k && osdMap == null && generations == map[]
    {
      this.k, osdMap, generations := k, null, map[];
    }

    ghost predicate Valid()
      reads this, if osdMap == null then {} else osdMap.Tables()
    {
      Sound(k) && (osdMap != null ==> Good(osdMap.Value()))
    }

    /** The loop's variables stand for this progress, and the map is the published one exactly if
        no step was made. */
    ghost predicate Stands(p: Progress, current: Snapshot?, changed: set<int>)
      reads this, if current == null then {} else current.Tables()
    {
      && p.At? && p == At(Shown(current), p.steps, changed) && (current == osdMap <==> p.steps == [])
      && (current != null ==> Good(current.Value()))
    }

    method StepFull(b: Batch, current: Snapshot?, changed: set<int>, epoch: Word, ghost p: Progress)
      returns (ok: bool, next: Snapshot?, more: set<int>, ghost q: Progress)
      requires Sound(k) && p.At? && epoch in b.fulls && Stands(p, current, changed)
      ensures q == OneFull(k, b, p, epoch) && ok == q.At? && (ok ==> Stands(q, next, more))
    {
      hide UpTo, Good;
      q := OneFull(k, b, p, epoch);
      if current != null && epoch <= current.head.epoch { return true, current, changed, q; }
      var decoded := k.full(b.fulls[epoch]);
      if decoded.None? { return false, null, {}, q; }
      var f := decoded.value;
      if f.head.epoch != epoch || f.head.fsid != b.fsid { return false, null, {}, q; }
      more := changed;
      if current != null {
        var n := Max(current.head.maxOsd, f.head.maxOsd);
        var osd := 0;
        while osd < n
          invariant 0 <= osd <= n && more == changed + UpTo(osd)
        {
          more := more + {osd};
          osd := osd + 1;
          assert UpTo(osd) == UpTo(osd - 1) + {osd - 1};
        }
      }
      next := FromFlat(f);
      return true, next, more, q;
    }

    method ApplyFulls(b: Batch, epochs: seq<Word>)
      returns (ok: bool, current: Snapshot?, changed: set<int>, ghost p: Progress)
      requires Valid() && Within(epochs, b.fulls.Keys)
      ensures p == Fulls(k, b, At(Shown(osdMap), [], {}), epochs) && ok == p.At? && (ok ==> Stands(p, current, changed))
    {
      hide OneFull, Good, Snapshot.Value;
      ok, current, changed, p := true, osdMap, {}, At(Shown(osdMap), [], {});
      var i := 0;
      while i < |epochs|
        invariant 0 <= i <= |epochs| && p.At? && ok && Stands(p, current, changed)
        invariant Fulls(k, b, At(Shown(osdMap), [], {}), epochs) == Fulls(k, b, p, epochs[i..])
      {
        assert epochs[i..][0] == epochs[i] && epochs[i..][1..] == epochs[i + 1..];
        ok, current, changed, p := StepFull(b, current, changed, epochs[i], p);
        if !ok { return; }
        i := i + 1;
      }
    }

    method StepChange(b: Batch, current: Snapshot?, changed: set<int>, epoch: Word, ghost p: Progress)
      returns (ok: bool, next: Snapshot?, more: set<int>, ghost q: Progress)
      requires Sound(k) && p.At? && epoch in b.changes && Stands(p, current, changed)
      ensures OneChange(k, b, p, epoch, q) && ok == q.At? && (ok ==> Stands(q, next, more))
    {
      hide Transitions, Good, Outcome, Decoded;
      if current != null && epoch <= current.head.epoch { return true, current, changed, p; }
      if current == null || epoch != (current.head.epoch + 1) % 0x1_0000_0000 { return false, null, {}, Fault; }
      var change := k.change(b.changes[epoch]);
      if change.None? { return false, null, {}, Fault; }
      if change.value.epoch != epoch || change.value.fsid != b.fsid { return false, null, {}, Fault; }
      next := Apply(current, change.value, k.full);
      if next == null { return false, null, {}, Fault; }
      StaysGood(k, current.Value(), change.value, next.Value());
      more := CollectTransitions(current, next, changed);
      q := At(Shown(next), p.steps + [next.Value()], more);
      return true, next, more, q;
    }

    method ApplyChanges(b: Batch, start: Snapshot?, listed: set<int>, epochs: seq<Word>, ghost p: Progress)
      returns (ok: bool, current: Snapshot?, changed: set<int>, ghost q: Progress)
      requires Sound(k) && Within(epochs, b.changes.Keys) && p.At? && Stands(p, start, listed)
      ensures Changes(k, b, p, epochs, q) && ok == q.At? && (ok ==> Stands(q, current, changed))
    {
      hide OneChange, Good, Snapshot.Value;
      ok, current, changed, q := true, start, listed, p;
      var i := 0;
      while i < |epochs|
        invariant 0 <= i <= |epochs| && Changes(k, b, p, epochs[..i], q)
        invariant ok == q.At? && (ok ==> Stands(q, current, changed))
      {
        assert epochs[..i + 1][..i] == epochs[..i];
        if ok {
          ok, current, changed, q := StepChange(b, current, changed, epochs[i], q);
        }
        i := i + 1;
      }
      assert epochs[..i] == epochs;
    }

    /** All or nothing: a batch that fails leaves the map and the generations alone; one that
        succeeds publishes its last map and bumps the generations of the changed OSDs. */
    method ApplyBatch(b: Batch) returns (ok: bool, ghost p: Progress)
      requires Valid()
      modifies `osdMap, `generations
      ensures Valid() && ok == p.At?
      ensures OneBatch(k, b, Moment(old(Shown(osdMap)), old(generations)), p, Moment(Shown(osdMap), generations))
    {
      hide Run, Good, Snapshot.Value;
      var fulls := SortedEpochs(b.fulls);
      var changes := SortedEpochs(b.changes);
      var current, changed;
      ok, current, changed, p := Compute(b, fulls, changes);
      if ok && current != osdMap {
        generations := BumpAll(generations, changed);
        osdMap := current;
      }
    }

    method Compute(b: Batch, fulls: seq<Word>, changes: seq<Word>)
      returns (ok: bool, current: Snapshot?, changed: set<int>, ghost p: Progress)
      requires Valid() && Within(fulls, b.fulls.Keys) && Within(changes, b.changes.Keys)
      ensures Run(k, b, Shown(osdMap), fulls, changes, p) && ok == p.At? && (ok ==> Stands(p, current, changed))
    {
      hide Fulls, Changes, Good, Snapshot.Value;
      ok, current, changed, p := ApplyFulls(b, fulls);
      if !ok { FaultStays(k, b, changes, Fault); return; }
      ok, current, changed, p := ApplyChanges(b, current, changed, changes, p);
      if !ok { return; }
      var epoch := EpochOf(current);
      if (b.newest != 0 && (current == null || epoch < b.newest))
          || (current != null && b.trim != 0 && epoch < b.trim) {
        ok, p := false, Fault;
      }
    }
  }

  method EpochOf(s: Snapshot?) returns (epoch: Word)
    ensures epoch == if s == null then 0 else s.Value().head.epoch
  {
    epoch := if s == null then 0 else s.head.epoch;
  }

  /** A map that an update leads to is as good as the decoder leaves one. */
  lemma StaysGood(k: Codec, f: Flat, c: Change, next: Flat)
    requires Sound(k) && Decoded(c) && Outcome(k.full, f, c, Some(next))
    ensures Good(next)
  {
    hide Good, Fits, Decoded;
  }

  function Generation(generations: map<int, nat>, osd: int): nat { if osd in generations then generations[osd] else 0 }

  /** Every listed OSD's generation is one further, in 64 bits; the others are as they were. */
  ghost predicate Bumped(before: map<int, nat>, after: map<int, nat>, changed: set<int>) {
    forall osd :: Generation(after, osd) ==
                    if osd in changed then (Generation(before, osd) + 1) % GENERATIONS else Generation(before, osd)
  }

  method BumpAll(generations: map<int, nat>, changed: set<int>) returns (r: map<int, nat>)
    ensures Bumped(generations, r, changed)
  {
    r := generations;
    var left := changed;
    while left != {}
      invariant left <= changed && Bumped(generations, r, changed - left)
      decreases |left|
    {
      var osd := PickMember(left);
      r := r[osd := (Generation(r, osd) + 1) % GENERATIONS];
      left := left - {osd};
    }
    assert changed - left == changed;
  }

  /** What one batch does to the client. */
  ghost predicate Published(map0: Option<Flat>, gen0: map<int, nat>, p: Progress, map1: Option<Flat>, gen1: map<int,
                            nat>) {
    if p.At? && p.steps != [] then map1 == p.current && Bumped(gen0, gen1, p.changed)
    else map1 == map0 && gen1 == gen0
  }

  // ---------------------------------------------------------------- whole runs

  datatype Moment = Moment(osdMap: Option<Flat>, generations: map<int, nat>)

  ghost predicate OneBatch(k: Codec, b: Batch, before: Moment, p: Progress, after: Moment)
    requires Sound(k)
  {
    exists fulls, changes {:trigger IsSorted(fulls, b.fulls.Keys), IsSorted(changes, b.changes.Keys)} ::
      && IsSorted(fulls, b.fulls.Keys) && IsSorted(changes, b.changes.Keys)
      && Within(fulls, b.fulls.Keys) && Within(changes, b.changes.Keys)
      && Run(k, b, before.osdMap, fulls, changes, p)
      && Published(before.osdMap, before.generations, p, after.osdMap, after.generations)
  }

  /** The client before and after every batch it is given, starting with no map. */
  ghost predicate IsRun(k: Codec, batches: seq<Batch>, results: seq<Progress>, moments: seq<Moment>)
    requires Sound(k)
  {
    && |results| == |batches| && |moments| == |batches| + 1 && moments[0] == Moment(None, map[])
    && forall i :: 0 <= i < |batches| ==> OneBatch(k, batches[i], moments[i], results[i], moments[i + 1])
  }

  ghost predicate MomentOk(m: Moment) {
    && (m.osdMap.Some? ==> Good(m.osdMap.value))
    && forall osd :: Generation(m.generations, osd) < GENERATIONS
  }

  /** The batch raised the generation of the OSD. */
  ghost predicate Raised(p: Progress, osd: int) { p.At? && p.steps != [] && osd in p.changed }

  lemma BatchKeeps(k: Codec, b: Batch, before: Moment, p: Progress, after: Moment)
    requires Sound(k) && OneBatch(k, b, before, p, after) && MomentOk(before)
    ensures MomentOk(after)
    ensures p.At? ==> Traced(before.osdMap, p.steps, p.changed)
    ensures if p.At? && p.steps != [] then after.osdMap == Some(p.steps[|p.steps| - 1]) else after == before
    ensures forall osd :: Generation(after.generations, osd) ==
                            if Raised(p, osd) then (Generation(before.generations, osd) + 1) % GENERATIONS
                            else Generation(before.generations, osd)
  {
    hide Run, Traced, Good, Steps;
    var fulls, changes :| && IsSorted(fulls, b.fulls.Keys) && IsSorted(changes, b.changes.Keys)
                          && Within(fulls, b.fulls.Keys) && Within(changes, b.changes.Keys)
                          && Run(k, b, before.osdMap, fulls, changes, p)
                          && Published(before.osdMap, before.generations, p, after.osdMap, after.generations);
    var split := BatchGood(k, b, before.osdMap, fulls, changes, p);
  }

  lemma {:induction false} RunKeeps(k: Codec, batches: seq<Batch>, results: seq<Progress>, moments: seq<Moment>, i: nat)
    requires Sound(k) && IsRun(k, batches, results, moments) && i < |moments|
    ensures MomentOk(moments[i])
  {
    hide OneBatch, MomentOk;
    if i == 0 { NothingYet(); } else {
      RunKeeps(k, batches, results, moments, i - 1);
      BatchKeeps(k, batches[i - 1], moments[i - 1], results[i - 1], moments[i]);
    }
  }

  lemma NothingYet() ensures MomentOk(Moment(None, map[])) { }

  /** How often the OSD's generation was raised by the batches from `i` up to `j`. */
  ghost function Raises(results: seq<Progress>, osd: int, i: nat, j: nat): (n: nat)
    requires i <= j <= |results|
    ensures n <= j - i
  {
    if i == j then 0 else Raises(results, osd, i, j - 1) + (if Raised(results[j - 1], osd) then 1 else 0)
  }

  lemma {:induction false} GenerationCounts(k: Codec, batches: seq<Batch>, results: seq<Progress>,
                                            moments: seq<Moment>, osd: int, i: nat, j: nat)
    requires Sound(k) && IsRun(k, batches, results, moments) && i <= j < |moments|
    ensures Generation(moments[j].generations, osd) ==
              (Generation(moments[i].generations, osd) + Raises(results, osd, i, j)) % GENERATIONS
  {
    hide OneBatch, Raised;
    RunKeeps(k, batches, results, moments, i);
    if i < j {
      GenerationCounts(k, batches, results, moments, osd, i, j - 1);
      RunKeeps(k, batches, results, moments, j - 1);
      BatchKeeps(k, batches[j - 1], moments[j - 1], results[j - 1], moments[j]);
      OneMore(Generation(moments[i].generations, osd) + Raises(results, osd, i, j - 1));
    }
  }

  lemma OneMore(n: nat)
    ensures (n % GENERATIONS + 1) % GENERATIONS == (n + 1) % GENERATIONS
  {
  }

  lemma {:induction false} NeverRaised(results: seq<Progress>, osd: int, i: nat, j: nat, t: nat)
    requires i <= t < j <= |results| && Raises(results, osd, i, j) == 0
    ensures !Raised(results[t], osd)
  {
    if t < j - 1 { NeverRaised(results, osd, i, j - 1, t); }
  }

  /** Along the steps of a batch that does not list it, an OSD's state stays. */
  lemma {:induction false} StepsConstant(start: Flat, steps: seq<Flat>, changed: set<int>, osd: int, s: nat)
    requires Traced(Some(start), steps, changed) && osd !in changed && s < |steps|
    ensures StateOf(steps[s], osd) == StateOf(start, osd)
  {
    hide StateOf;
    if s > 0 { StepsConstant(start, steps, changed, osd, s - 1); }
    assert StateOf(steps[s], osd) == StateOf(Before(Some(start), steps, s).value, osd);
  }

  lemma {:induction false} MapConstant(k: Codec, batches: seq<Batch>, results: seq<Progress>, moments: seq<Moment>,
                                       osd: int, i: nat, j: nat, t: nat)
    requires Sound(k) && IsRun(k, batches, results, moments) && i <= t <= j < |moments|
    requires moments[i].osdMap.Some? && Raises(results, osd, i, j) == 0
    ensures moments[t].osdMap.Some? && StateOf(moments[t].osdMap.value, osd) == StateOf(moments[i].osdMap.value, osd)
  {
    hide OneBatch, StateOf, Traced, MomentOk;
    if t > i {
      MapConstant(k, batches, results, moments, osd, i, j, t - 1);
      RunKeeps(k, batches, results, moments, t - 1);
      BatchKeeps(k, batches[t - 1], moments[t - 1], results[t - 1], moments[t]);
      NeverRaised(results, osd, i, j, t - 1);
      var p := results[t - 1];
      if p.At? && p.steps != [] { StepsConstant(moments[t - 1].osdMap.value, p.steps, p.changed, osd, |p.steps| - 1); }
    }
  }

  /** Once a map exists, an unchanged generation means that the OSD's state was the same in
      every map in between, also in those a batch only passed through. Generations have 64
      bits, so this needs fewer than 2^64 batches in between. */
  lemma SameGenerationSameState(k: Codec, batches: seq<Batch>, results: seq<Progress>, moments: seq<Moment>, osd: int,
                                i: nat, j: nat, t: nat, s: nat)
    requires Sound(k) && IsRun(k, batches, results, moments) && i <= t < j < |moments| && j - i < GENERATIONS
    requires moments[i].osdMap.Some? && results[t].At? && s < |results[t].steps|
    requires Generation(moments[i].generations, osd) == Generation(moments[j].generations, osd)
    ensures StateOf(results[t].steps[s], osd) == StateOf(moments[i].osdMap.value, osd)
  {
    hide OneBatch, StateOf, Traced, Raised;
    GenerationCounts(k, batches, results, moments, osd, i, j);
    RunKeeps(k, batches, results, moments, i);
    NoWrap(Generation(moments[i].generations, osd), Raises(results, osd, i, j));
    MapConstant(k, batches, results, moments, osd, i, j, t);
    RunKeeps(k, batches, results, moments, t);
    BatchAt(k, batches, results, moments, t);
    NeverRaised(results, osd, i, j, t);
    Unlisted(results[t], osd);
    StepsConstant(moments[t].osdMap.value, results[t].steps, results[t].changed, osd, s);
  }

  lemma Unlisted(p: Progress, osd: int)
    requires p.At? && p.steps != [] && !Raised(p, osd)
    ensures osd !in p.changed
  {
  }

  lemma BatchAt(k: Codec, batches: seq<Batch>, results: seq<Progress>, moments: seq<Moment>, t: nat)
    requires Sound(k) && IsRun(k, batches, results, moments) && t < |batches| && MomentOk(moments[t])
    ensures results[t].At? ==> Traced(moments[t].osdMap, results[t].steps, results[t].changed)
  {
    hide OneBatch, Traced, MomentOk;
    BatchKeeps(k, batches[t], moments[t], results[t], moments[t + 1]);
  }

  lemma NoWrap(g: nat, n: nat)
    requires g < GENERATIONS && n < GENERATIONS && (g + n) % GENERATIONS == g
    ensures n == 0
  {
  }

  /** An update that succeeds leads to one map; whether it does is open only if its names clash. */
  lemma OutcomeDecided(decode: seq<int> -> Option<Flat>, f: Flat, c: Change, a: Option<Flat>, b: Option<Flat>)
    requires Decoded(c) && Outcome(decode, f, c, a) && Outcome(decode, f, c, b)
    ensures a.Some? && b.Some? ==> a == b
    ensures c.fullMap != [] || NoClash(f.names, c.newPoolNames) ==> a == b
  {
    hide Fits, NoClash, Bijective, NextPools, NextStates, NextWeights, NextAffinity, NextAddresses;
    if c.fullMap == [] && a.Some? && b.Some? { NamesUnique(NextPools(f.pools, c), a.value.names, b.value.names); }
  }

  lemma {:induction false} ChangesDecided(k: Codec, b: Batch, p: Progress, epochs: seq<Word>, q: Progress, r: Progress)
    requires Sound(k) && Within(epochs, b.changes.Keys) && Changes(k, b, p, epochs, q) && Changes(k, b, p, epochs, r)
    requires q.At? && r.At?
    ensures q == r
    decreases |epochs|
  {
    hide OneChange;
    if epochs != [] {
      var last := |epochs| - 1;
      var m :| Changes(k, b, p, epochs[..last], m) && if m.Fault? then q == m else OneChange(k, b, m, epochs[last], q);
      var n :| Changes(k, b, p, epochs[..last], n) && if n.Fault? then r == n else OneChange(k, b, n, epochs[last], r);
      ChangesDecided(k, b, p, epochs[..last], m, n);
      ChangeDecided(k, b, m, epochs[last], q, r);
    }
  }

  lemma ChangeDecided(k: Codec, b: Batch, p: Progress, epoch: Word, q: Progress, r: Progress)
    requires Sound(k) && p.At? && epoch in b.changes && q.At? && r.At?
    requires OneChange(k, b, p, epoch, q) && OneChange(k, b, p, epoch, r)
    ensures q == r
  {
    hide Outcome, Transitions;
    if !Stale(p.current, epoch) {
      OutcomeDecided(k.full, p.current.value, k.change(b.changes[epoch]).value, q.current, r.current);
    }
  }

  /** Whatever order tables are walked in, a batch that succeeds goes through the same maps and
      lists the same OSDs. */
  lemma BatchDecided(k: Codec, b: Batch, before: Moment, q: Progress, after: Moment, r: Progress, other: Moment)
    requires Sound(k) && OneBatch(k, b, before, q, after) && OneBatch(k, b, before, r, other) && q.At? && r.At?
    ensures q == r && after.osdMap == other.osdMap
    ensures forall osd :: Generation(after.generations, osd) == Generation(other.generations, osd)
  {
    hide Fulls, Changes;
    var fulls, changes :| && IsSorted(fulls, b.fulls.Keys) && IsSorted(changes, b.changes.Keys)
                          && Within(fulls, b.fulls.Keys) && Within(changes, b.changes.Keys)
                          && Run(k, b, before.osdMap, fulls, changes, q)
                          && Published(before.osdMap, before.generations, q, after.osdMap, after.generations);
    var fulls1, changes1 :| && IsSorted(fulls1, b.fulls.Keys) && IsSorted(changes1, b.changes.Keys)
                            && Within(fulls1, b.fulls.Keys) && Within(changes1, b.changes.Keys)
                            && Run(k, b, before.osdMap, fulls1, changes1, r)
                            && Published(before.osdMap, before.generations, r, other.osdMap, other.generations);
    SortedUnique(fulls, fulls1);
    SortedUnique(changes, changes1);
    ChangesDecided(k, b, Fulls(k, b, At(before.osdMap, [], {}), fulls), changes, q, r);
  }

  /** Over any run, the epoch of the published map never falls. */
  lemma {:induction false} EpochsGrow(k: Codec, batches: seq<Batch>, results: seq<Progress>, moments: seq<Moment>,
                                      i: nat, j: nat)
    requires Sound(k) && IsRun(k, batches, results, moments) && i <= j < |moments| && moments[i].osdMap.Some?
    ensures moments[j].osdMap.Some? && moments[i].osdMap.value.head.epoch <= moments[j].osdMap.value.head.epoch
    ensures moments[i].osdMap.value.head.epoch == moments[j].osdMap.value.head.epoch ==>
              moments[i].osdMap == moments[j].osdMap
  {
    hide OneBatch, MomentOk;
    if i < j {
      EpochsGrow(k, batches, results, moments, i, j - 1);
      RunKeeps(k, batches, results, moments, j - 1);
      OneBatchGrows(k, batches[j - 1], moments[j - 1], results[j - 1], moments[j]);
    }
  }

  lemma OneBatchGrows(k: Codec, b: Batch, before: Moment, p: Progress, after: Moment)
    requires Sound(k) && OneBatch(k, b, before, p, after) && MomentOk(before) && before.osdMap.Some?
    ensures after.osdMap == before.osdMap
            || (after.osdMap.Some? && before.osdMap.value.head.epoch < after.osdMap.value.head.epoch)
  {
    hide Run, Traced, Good, Steps, Bumped;
    var fulls, changes :| && IsSorted(fulls, b.fulls.Keys) && IsSorted(changes, b.changes.Keys)
                          && Within(fulls, b.fulls.Keys) && Within(changes, b.changes.Keys)
                          && Run(k, b, before.osdMap, fulls, changes, p)
                          && Published(before.osdMap, before.generations, p, after.osdMap, after.generations);
    var split := BatchGood(k, b, before.osdMap, fulls, changes, p);
    if p.At? && p.steps != [] { StepAbove(k, b, before.osdMap, p.steps, split, |p.steps| - 1); }
  }

  lemma {:induction false} StepAbove(k: Codec, b: Batch, start: Option<Flat>, steps: seq<Flat>, fulls: nat, i: nat)
    requires Sound(k) && Steps(k, b, start, steps, fulls) && i < |steps| && start.Some?
    ensures start.value.head.epoch < steps[i].head.epoch
  {
    hide Steps;
    if i > 0 { StepAbove(k, b, start, steps, fulls, i - 1); }
    StepsGrow(k, b, start, steps, fulls, i);
  }
}
