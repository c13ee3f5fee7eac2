/** Which maps a batch goes through, which OSDs it lists and why it may fail, said of the batch alone. */
module MapBatchFacts {
  import opened Common
  import opened Straw2
  import opened Incremental
  import opened CopyOnWrite
  import opened MapBatch

  // ---------------------------------------------------------------- every newer epoch is taken

  /** There is no map yet, or the epoch is beyond it. */
  predicate Newer(current: Option<Flat>, epoch: Word) { current.None? || current.value.head.epoch < epoch }

  /** One of the maps from `i` up to `j` has this epoch. */
  ghost predicate Passes(steps: seq<Flat>, i: nat, j: nat, epoch: Word) {
    j <= |steps| && exists k :: i <= k < j && steps[k].head.epoch == epoch
  }

  ghost predicate Ahead(start: Option<Flat>, current: Option<Flat>, epochs: seq<Word>) {
    current == start || forall i :: 0 <= i < |epochs| ==> Newer(current, epochs[i])
  }

  lemma {:induction false} FullsTaken(k: Codec, b: Batch, start: Option<Flat>, p: Progress, epochs: seq<Word>)
    requires Within(epochs, b.fulls.Keys) && Increasing(epochs) && p.At? && Ahead(start, p.current, epochs)
    requires p.current == Before(start, p.steps, |p.steps|)
    ensures var q := Fulls(k, b, p, epochs);
            q.At? ==>
              && p.steps <= q.steps && q.current == Before(start, q.steps, |q.steps|)
              && forall i :: 0 <= i < |epochs| && Newer(start, epochs[i]) ==>
                   Passes(q.steps, |p.steps|, |q.steps|, epochs[i])
    decreases |epochs|
  {
    hide AllOsds;
    var q := Fulls(k, b, p, epochs);
    if epochs != [] && q.At? {
      var m, rest := OneFull(k, b, p, epochs[0]), epochs[1..];
      assert m.Fault? ==> Fulls(k, b, m, rest) == m;
      assert forall i :: 0 <= i < |rest| ==> rest[i] == epochs[i + 1] && epochs[0] < rest[i];
      FullsTaken(k, b, start, m, rest);
      forall i | 0 <= i < |epochs| && Newer(start, epochs[i])
        ensures Passes(q.steps, |p.steps|, |q.steps|, epochs[i])
      {
        if i == 0 {
          assert !Stale(p.current, epochs[0]);
          assert q.steps[|p.steps|] == m.steps[|p.steps|];
        } else {
          assert Passes(q.steps, |m.steps|, |q.steps|, rest[i - 1]);
        }
      }
    }
  }

  lemma {:induction false} ChangesTaken(k: Codec, b: Batch, p: Progress, epochs: seq<Word>, q: Progress)
    requires Sound(k) && Within(epochs, b.changes.Keys) && Increasing(epochs) && Changes(k, b, p, epochs, q) && q.At?
    ensures p.At? && p.steps <= q.steps && (epochs != [] ==> p.current.Some? && q.current.Some?)
    ensures p.current.Some? ==>
              && q.current.Some?
              && (q.current == p.current || q.current.value.head.epoch in epochs)
              && forall i :: 0 <= i < |epochs| && Newer(p.current, epochs[i]) ==>
                   Passes(q.steps, |p.steps|, |q.steps|, epochs[i])
    decreases |epochs|
  {
    hide OneChange, Sound, Passes;
    if epochs != [] {
      var last := |epochs| - 1;
      var m :| Changes(k, b, p, epochs[..last], m) && if m.Fault? then q == m else OneChange(k, b, m, epochs[last], q);
      ChangesTaken(k, b, p, epochs[..last], m);
      StepTaken(k, b, m, epochs[last], q);
      assert Newer(p.current, epochs[last]) ==> Newer(m.current, epochs[last]) by {
        if m.current != p.current {
          var i :| 0 <= i < last && epochs[..last][i] == m.current.value.head.epoch;
          assert epochs[i] < epochs[last];
        }
      }
      forall i | 0 <= i < |epochs| && Newer(p.current, epochs[i])
        ensures Passes(q.steps, |p.steps|, |q.steps|, epochs[i])
      {
        assert i < last ==> epochs[..last][i] == epochs[i];
        PassesOn(m.steps, q.steps, |p.steps|, epochs[i]);
      }
    }
  }

  lemma PassesOn(steps: seq<Flat>, longer: seq<Flat>, i: nat, epoch: Word)
    requires i <= |steps| && steps <= longer
    ensures Passes(steps, i, |steps|, epoch) ==> Passes(longer, i, |longer|, epoch)
    ensures |longer| == |steps| + 1 && longer[|steps|].head.epoch == epoch ==> Passes(longer, i, |longer|, epoch)
  {
  }

  lemma StepTaken(k: Codec, b: Batch, m: Progress, epoch: Word, q: Progress)
    requires Sound(k) && m.At? && q.At? && epoch in b.changes && OneChange(k, b, m, epoch, q)
    ensures m.current.Some? && q.current.Some?
    ensures if Newer(m.current, epoch)
            then q.current.value.head.epoch == epoch && q.steps == m.steps + [q.current.value]
            else q == m
  {
    hide Transitions, Next, Fits, NoClash, Announced, Good;
  }

  // ---------------------------------------------------------------- exactly the touched OSDs are listed

  /** What a client can tell about an OSD: whether it exists (bit 0), is up (bit 1), was destroyed (bit 7),
      and is in (its weight is not zero). */
  lemma StateIs(f: Flat, osd: int)
    ensures StateOf(f, osd).Some? <==> 0 <= osd < |f.states|
    ensures StateOf(f, osd).Some? ==>
              && StateOf(f, osd).value.exists_ == (f.states[osd] & 0x1 != 0)
              && StateOf(f, osd).value.up == (f.states[osd] & 0x2 != 0)
              && StateOf(f, osd).value.destroyed == (f.states[osd] & 0x80 != 0)
              && StateOf(f, osd).value.in_ == (osd < |f.weights| && f.weights[osd] != 0)
  {
  }

  /** A full map touches every OSD of the two maps, an update those whose state it changes. */
  ghost predicate Touches(before: Option<Flat>, after: Flat, full: bool, osd: int) {
    before.Some? &&
      if full then 0 <= osd < before.value.head.maxOsd || 0 <= osd < after.head.maxOsd
      else StateOf(before.value, osd) != StateOf(after, osd)
  }

  ghost predicate Touched(start: Option<Flat>, steps: seq<Flat>, fulls: nat, osd: int) {
    exists i :: 0 <= i < |steps| && Touches(Before(start, steps, i), steps[i], i < fulls, osd)
  }

  ghost predicate Lists(start: Option<Flat>, p: Progress, fulls: nat) {
    p.At? ==> forall osd :: osd in p.changed <==> Touched(start, p.steps, fulls, osd)
  }

  lemma TouchedMore(start: Option<Flat>, steps: seq<Flat>, fulls: nat, f: Flat, more: nat, osd: int)
    requires fulls <= |steps| && (more == fulls || (fulls == |steps| && more == fulls + 1))
    ensures Touched(start, steps + [f], more, osd) <==>
            Touched(start, steps, fulls, osd) || Touches(Before(start, steps, |steps|), f, more > fulls, osd)
  {
    hide Touches;
    var longer := steps + [f];
    forall i | 0 <= i < |steps|
      ensures Touches(Before(start, longer, i), longer[i], i < more, osd)
              == Touches(Before(start, steps, i), steps[i], i < fulls, osd)
    {
      BeforeSame(start, steps, f, i);
    }
    BeforeSame(start, steps, f, |steps|);
    assert longer[|steps|] == f;
  }

  lemma {:induction false} FullsList(k: Codec, b: Batch, start: Option<Flat>, p: Progress, epochs: seq<Word>)
    requires Within(epochs, b.fulls.Keys) && p.At? && p.current == Before(start, p.steps, |p.steps|)
    requires Lists(start, p, |p.steps|)
    ensures var q := Fulls(k, b, p, epochs); q.At? ==> Lists(start, q, |q.steps|)
    decreases |epochs|
  {
    hide Touched, AllOsds;
    if epochs != [] {
      var m := OneFull(k, b, p, epochs[0]);
      if m.At? {
        if !Stale(p.current, epochs[0]) {
          var f := m.current.value;
          forall osd ensures osd in m.changed <==> Touched(start, m.steps, |m.steps|, osd) {
            TouchedMore(start, p.steps, |p.steps|, f, |p.steps| + 1, osd);
            if p.current.Some? { AllOsdsAre(p.current.value, f, osd); }
          }
        }
        FullsList(k, b, start, m, epochs[1..]);
      }
    }
  }

  lemma AllOsdsAre(before: Flat, after: Flat, osd: int)
    ensures osd in AllOsds(before, after) <==> Touches(Some(before), after, true, osd)
  {
  }

  lemma TransitionsAre(before: Flat, after: Flat, osd: int)
    requires Good(before) && Good(after)
    ensures osd in Transitions(before, after) <==> Touches(Some(before), after, false, osd)
  {
    hide StateOf, Good;
    GoodVectors(before);
    GoodVectors(after);
    if osd !in Transitions(before, after) { TransitionsCover(before, after, osd); }
  }

  lemma {:induction false} ChangesList(k: Codec, b: Batch, start: Option<Flat>, p: Progress, epochs: seq<Word>,
                                       fulls: nat, q: Progress)
    requires Sound(k) && Within(epochs, b.changes.Keys) && Changes(k, b, p, epochs, q) && q.At?
    requires p.At? && Consistent(k, b, start, p, fulls) && Lists(start, p, fulls)
    ensures Lists(start, q, fulls)
    decreases |epochs|
  {
    hide OneChange, Sound, Consistent, Lists;
    if epochs != [] {
      var last := |epochs| - 1;
      var m :| Changes(k, b, p, epochs[..last], m) && if m.Fault? then q == m else OneChange(k, b, m, epochs[last], q);
      ChangesKeep(k, b, start, p, epochs[..last], fulls, m);
      ChangesList(k, b, start, p, epochs[..last], fulls, m);
      ChangeLists(k, b, start, m, epochs[last], fulls, q);
    }
  }

  lemma ChangeLists(k: Codec, b: Batch, start: Option<Flat>, m: Progress, epoch: Word, fulls: nat, q: Progress)
    requires Sound(k) && m.At? && q.At? && epoch in b.changes && OneChange(k, b, m, epoch, q)
    requires Consistent(k, b, start, m, fulls) && Lists(start, m, fulls)
    ensures Lists(start, q, fulls)
  {
    hide Touched, Touches, Transitions, FullStep, ChangeStep, Traced, Good, Outcome, Decoded;
    if !Stale(m.current, epoch) {
      var before, after := m.current.value, q.current.value;
      LastGood(start, m.steps);
      StaysGood(k, before, k.change(b.changes[epoch]).value, after);
      forall osd ensures osd in q.changed <==> Touched(start, q.steps, fulls, osd) {
        TouchedMore(start, m.steps, fulls, after, fulls, osd);
        TransitionsAre(before, after, osd);
      }
    }
  }

  // ---------------------------------------------------------------- what a batch that succeeds has done

  /** A batch that succeeds went through every newer full map, then through every update newer than that, and
      reached the epochs it announced. The OSDs it lists are exactly those that some full map or some update
      on the way touched. */
  lemma BatchIs(k: Codec, b: Batch, before: Moment, p: Progress, after: Moment) returns (fulls: nat)
    requires Sound(k) && OneBatch(k, b, before, p, after) && MomentOk(before) && p.At?
    ensures fulls <= |p.steps| && Steps(k, b, before.osdMap, p.steps, fulls)
    ensures after.osdMap == Before(before.osdMap, p.steps, |p.steps|)
    ensures forall epoch :: epoch in b.fulls && Newer(before.osdMap, epoch) ==> Passes(p.steps, 0, fulls, epoch)
    ensures var full := Before(before.osdMap, p.steps, fulls);
            forall epoch :: epoch in b.changes ==>
                full.Some? && (Newer(full, epoch) ==> Passes(p.steps, fulls, |p.steps|, epoch))
    ensures b.newest != 0 ==> after.osdMap.Some? && b.newest <= after.osdMap.value.head.epoch
    ensures b.trim != 0 && after.osdMap.Some? ==> b.trim <= after.osdMap.value.head.epoch
    ensures forall osd :: osd in p.changed <==> Touched(before.osdMap, p.steps, fulls, osd)
  {
    hide Run, Good, Steps, Bumped, Touched, Passes, Newer, Sound;
    var first, later :| && IsSorted(first, b.fulls.Keys) && IsSorted(later, b.changes.Keys)
                       && Within(first, b.fulls.Keys) && Within(later, b.changes.Keys)
                       && Run(k, b, before.osdMap, first, later, p)
                       && Published(before.osdMap, before.generations, p, after.osdMap, after.generations);
    fulls := RunIs(k, b, before.osdMap, first, later, p);
    forall epoch | epoch in b.fulls && Newer(before.osdMap, epoch) ensures Passes(p.steps, 0, fulls, epoch) {
      var i :| 0 <= i < |first| && first[i] == epoch;
    }
    var full := Before(before.osdMap, p.steps, fulls);
    forall epoch | epoch in b.changes
      ensures full.Some? && (Newer(full, epoch) ==> Passes(p.steps, fulls, |p.steps|, epoch))
    {
      var i :| 0 <= i < |later| && later[i] == epoch;
    }
  }

  lemma RunIs(k: Codec, b: Batch, start: Option<Flat>, first: seq<Word>, later: seq<Word>, q: Progress)
    returns (fulls: nat)
    requires Sound(k) && (start.Some? ==> Good(start.value)) && Increasing(first) && Increasing(later)
    requires Within(first, b.fulls.Keys) && Within(later, b.changes.Keys) && Run(k, b, start, first, later, q) && q.At?
    ensures fulls <= |q.steps| && Steps(k, b, start, q.steps, fulls)
    ensures q.current == Before(start, q.steps, |q.steps|) && Reaches(b, q.current)
    ensures forall i :: 0 <= i < |first| && Newer(start, first[i]) ==> Passes(q.steps, 0, fulls, first[i])
    ensures var full := Before(start, q.steps, fulls);
            forall i :: 0 <= i < |later| ==>
                full.Some? && (Newer(full, later[i]) ==> Passes(q.steps, fulls, |q.steps|, later[i]))
    ensures Lists(start, q, fulls)
  {
    hide Fulls, Changes, Steps, Traced, Good, Newer, Passes, Touched, Sound;
    var none := At(start, [], {});
    var p := Fulls(k, b, none, first);
    NoSteps(k, b, start);
    assert Lists(start, none, 0) by { NoneTouched(start); }
    FullsKeep(k, b, start, none, first);
    FullsTaken(k, b, start, none, first);
    FullsList(k, b, start, none, first);
    if p.Fault? { FaultStays(k, b, later, q); }
    fulls := |p.steps|;
    ChangesKeep(k, b, start, p, later, fulls, q);
    ChangesTaken(k, b, p, later, q);
    ChangesList(k, b, start, p, later, fulls, q);
    assert Before(start, q.steps, fulls) == Before(start, p.steps, fulls);
    forall i | 0 <= i < |first| && Newer(start, first[i]) ensures Passes(q.steps, 0, fulls, first[i]) {
      PassesPrefix(p.steps, q.steps, first[i]);
    }
  }

  lemma NoneTouched(start: Option<Flat>)
    ensures forall osd :: !Touched(start, [], 0, osd)
  {
  }

  lemma PassesPrefix(steps: seq<Flat>, longer: seq<Flat>, epoch: Word)
    requires steps <= longer && Passes(steps, 0, |steps|, epoch)
    ensures Passes(longer, 0, |steps|, epoch)
  {
  }

  // ---------------------------------------------------------------- why a batch fails

  /** The bytes are no map, or one of another epoch or another cluster. */
  ghost predicate BadFull(k: Codec, b: Batch, epoch: Word)
    requires epoch in b.fulls
  {
    var f := k.full(b.fulls[epoch]);
    f.None? || f.value.head.epoch != epoch || f.value.head.fsid != b.fsid
  }

  /** There is no map to update or it is not the one before; or the bytes are no update, or one of another epoch
      or another cluster; or the update does not fit the map. */
  ghost predicate BadChange(k: Codec, b: Batch, current: Option<Flat>, epoch: Word)
    requires Sound(k) && epoch in b.changes
  {
    var c := k.change(b.changes[epoch]);
    || current.None? || current.value.head.epoch + 1 != epoch
    || c.None? || c.value.epoch != epoch || c.value.fsid != b.fsid
    || Outcome(k.full, current.value, c.value, None)
  }

  lemma {:induction false} FullsFail(k: Codec, b: Batch, start: Option<Flat>, p: Progress, epochs: seq<Word>)
    returns (m: Progress, epoch: Word)
    requires Sound(k) && Within(epochs, b.fulls.Keys) && p.At? && Consistent(k, b, start, p, |p.steps|)
    requires Fulls(k, b, p, epochs).Fault?
    ensures m.At? && Consistent(k, b, start, m, |m.steps|)
    ensures epoch in b.fulls && Newer(m.current, epoch) && BadFull(k, b, epoch)
    decreases |epochs|
  {
    hide Consistent, AllOsds, Sound;
    var next := OneFull(k, b, p, epochs[0]);
    if next.Fault? {
      m, epoch := p, epochs[0];
    } else {
      FullKeeps(k, b, start, p, epochs[0]);
      m, epoch := FullsFail(k, b, start, next, epochs[1..]);
    }
  }

  lemma {:induction false} ChangesFail(k: Codec, b: Batch, start: Option<Flat>, p: Progress, epochs: seq<Word>,
                                       fulls: nat)
    returns (m: Progress, epoch: Word)
    requires Sound(k) && Within(epochs, b.changes.Keys) && p.At? && Consistent(k, b, start, p, fulls)
    requires Changes(k, b, p, epochs, Fault)
    ensures m.At? && Consistent(k, b, start, m, fulls)
    ensures epoch in b.changes && Newer(m.current, epoch) && BadChange(k, b, m.current, epoch)
    decreases |epochs|
  {
    hide Consistent, OneChange, Sound, BadChange;
    var last := |epochs| - 1;
    var n :| Changes(k, b, p, epochs[..last], n) && if n.Fault? then Fault == n
        else OneChange(k, b, n, epochs[last], Fault);
    if n.Fault? {
      m, epoch := ChangesFail(k, b, start, p, epochs[..last], fulls);
    } else {
      ChangesKeep(k, b, start, p, epochs[..last], fulls, n);
      ChangeFails(k, b, n, epochs[last]);
      m, epoch := n, epochs[last];
    }
  }

  lemma ChangeFails(k: Codec, b: Batch, p: Progress, epoch: Word)
    requires Sound(k) && p.At? && epoch in b.changes && OneChange(k, b, p, epoch, Fault)
    ensures Newer(p.current, epoch) && BadChange(k, b, p.current, epoch)
  {
    hide Outcome, Transitions;
  }

  /** The map is short of an epoch that the batch announced. */
  predicate Falls(b: Batch, current: Option<Flat>) {
    || (b.newest != 0 && (current.None? || current.value.head.epoch < b.newest))
    || (b.trim != 0 && current.Some? && current.value.head.epoch < b.trim)
  }

  /** A batch fails only if, after some of its maps, a newer full map or update of it is bad, or all of them
      fall short of what it announced; and then it changes nothing. */
  lemma BatchFailsOnlyIf(k: Codec, b: Batch, before: Moment, p: Progress, after: Moment)
    returns (m: Progress, fulls: nat)
    requires Sound(k) && OneBatch(k, b, before, p, after) && MomentOk(before) && p.Fault?
    ensures after == before && m.At? && fulls <= |m.steps| && Steps(k, b, before.osdMap, m.steps, fulls)
    ensures m.current == Before(before.osdMap, m.steps, |m.steps|)
    ensures || (exists epoch :: epoch in b.fulls && Newer(m.current, epoch) && BadFull(k, b, epoch))
            || (exists epoch :: epoch in b.changes && Newer(m.current, epoch) && BadChange(k, b, m.current, epoch))
            || Falls(b, m.current)
  {
    hide Fulls, Changes, Steps, Traced, Good, Sound, BadFull, BadChange, Newer;
    var start := before.osdMap;
    var first, later :| && IsSorted(first, b.fulls.Keys) && IsSorted(later, b.changes.Keys)
                        && Within(first, b.fulls.Keys) && Within(later, b.changes.Keys)
                        && Run(k, b, start, first, later, p)
                        && Published(start, before.generations, p, after.osdMap, after.generations);
    var none := At(start, [], {});
    var full := Fulls(k, b, none, first);
    NoSteps(k, b, start);
    if full.Fault? {
      var epoch;
      m, epoch := FullsFail(k, b, start, none, first);
      fulls := |m.steps|;
    } else {
      FullsKeep(k, b, start, none, first);
      fulls := |full.steps|;
      var q :| Changes(k, b, full, later, q) && p == if q.At? && Reaches(b, q.current) then q else Fault;
      if q.Fault? {
        var epoch;
        m, epoch := ChangesFail(k, b, start, full, later, fulls);
      } else {
        ChangesKeep(k, b, start, full, later, fulls, q);
        m := q;
      }
    }
    StepsReach(k, b, start, m.steps, fulls);
  }

  lemma StepsReach(k: Codec, b: Batch, start: Option<Flat>, steps: seq<Flat>, fulls: nat)
    requires Sound(k) && Steps(k, b, start, steps, fulls)
    ensures fulls <= |steps|
  {
  }
}
