/** Placement rules: the step interpreter, the certified profile and the placement it gives. */
module CrushRules {
  import opened Common
  import opened Straw2
  import opened CrushGraph
  import opened CrushSearch
  import opened CrushPlace
  import Permutation

  const TAKE := 1
  const CHOOSE_FIRST_N := 2
  const CHOOSE_INDEP := 3
  const EMIT := 4
  const CHOOSELEAF_FIRST_N := 6
  const SET_TRIES := 8
  const SET_LEAF_TRIES := 9
  const REPLICATED := 1
  const ERASURE := 3
  const MAX_REPLICAS := 64

  datatype Step = Step(operation: nat, argument1: int, argument2: int)
  datatype Rule = Rule(kind: nat, steps: seq<Step>)
  datatype Tunables = Tunables(localTries: nat, fallbackTries: nat, totalTries: nat, descendOnce: nat, varyR: nat,
                               stable: nat)
  datatype CrushMap = CrushMap(graph: Graph, rules: map<nat, Rule>, tunables: Tunables, shadows: set<int>)

  datatype Placed = Devices(items: seq<int>) | Invalid

  // ---------------------------------------------------------------- rules as functions

  /** The tries in force, those set for leaves (none: zero), the working set of the next step, and
      what has been emitted. */
  datatype Progress = Progress(tries: nat, leafTries: nat, working: seq<int>, result: seq<int>)

  function Start(t: Tunables): Progress { Progress(t.totalTries + 1, 0, [], []) }

  /** An indep step looks for items only; the tries for leaves are handed on all the same. */
  function AimOf(step: Step, number: nat, leafTries: nat): Aim {
    Aim(step.argument2, false, if leafTries == 0 then 1 else leafTries, number)
  }

  function EffortOf(t: Tunables, tries: nat): Effort {
    Effort(tries, if t.descendOnce != 0 then 1
           else t.totalTries + 1, t.localTries, t.fallbackTries, t.varyR, t.stable != 0)
  }

  predicate Chooses(step: Step) {
    step.operation == CHOOSE_FIRST_N || step.operation == CHOOSELEAF_FIRST_N || step.operation == CHOOSE_INDEP
  }

  /** How many a step asks for; zero and below count from the size of the result. */
  function Number(step: Step, maximum: nat): int {
    if step.argument1 <= 0 then step.argument1 + maximum else step.argument1
  }

  function Min(a: int, b: int): int { if a < b then a else b }

  /** Chooses below one bucket of the working set, given how many positions are used up. */
  ghost function ChooseIn(w: World, t: Tunables, tries: nat, leafTries: nat, seed: Word, maximum: nat, step: Step,
                          root: int, used: nat): (out: (seq<int>, seq<int>))
    requires Usable(w.g) && used <= maximum && Chooses(step)
    ensures |out.0| <= maximum - used && |out.1| == |out.0|
  {
    var number := Number(step, maximum);
    if number <= 0 || root !in w.g.buckets then ([], [])
    else if step.operation == CHOOSE_INDEP then
      var count := Min(number, maximum - used);
      var out := Indep(w, seed, AimOf(step, number, leafTries), used, 0, tries, 0, root, AllEmpty(count));
      (out.items, out.leaves)
    else
      var e := EffortOf(t, tries);
      var leafward := step.operation == CHOOSELEAF_FIRST_N;
      FirstNSize(w, e, seed, step.argument2, leafward, 0, root, 0, number, maximum - used, [], []);
      FirstN(w, e, seed, step.argument2, leafward, 0, root, 0, number, maximum - used, [], [])
  }

  lemma {:induction false} FirstNSize(w: World, e: Effort, seed: Word, kind: int, leafward: bool, parentR: nat,
                                      root: int,
                                      replica: nat, replicas: nat, count: nat, taken: seq<int>, leaves: seq<int>)
    requires Usable(w.g) && root in w.g.buckets && |leaves| == |taken|
    ensures var (out, under) := FirstN(w, e, seed, kind, leafward, parentR, root, replica, replicas, count, taken,
                                       leaves);
            |taken| <= |out| <= |taken| + count && |under| == |out|
    decreases Left(replicas, replica)
  {
    hide Search, Usable;
    if replica < replicas && count > 0 {
      match Search(w, e, seed, kind, leafward, replica + parentR, taken, leaves, root, root, 0, 0)
      case Skipped => FirstNSize(w, e, seed, kind, leafward, parentR, root, replica + 1, replicas, count, taken,
                                 leaves);
      case Found(item, leaf) =>
        FirstNSize(w, e, seed, kind, leafward, parentR, root, replica + 1, replicas, count - 1, taken + [item],
                   leaves + [leaf]);
    }
  }

  /** Chooses below every bucket of the working set in turn. */
  ghost function ChooseAll(w: World, t: Tunables, tries: nat, leafTries: nat, seed: Word, maximum: nat, step: Step,
                           working: seq<int>,
                           output: seq<int>, leaves: seq<int>): (out: (seq<int>, seq<int>))
    requires Usable(w.g) && |leaves| == |output| <= maximum && Chooses(step)
    ensures |out.0| <= maximum && |out.1| == |out.0|
    decreases |working|
  {
    if working == [] then (output, leaves)
    else
      var (more, under) := ChooseIn(w, t, tries, leafTries, seed, maximum, step, working[0], |output|);
      ChooseAll(w, t, tries, leafTries, seed, maximum, step, working[1..], output + more, leaves + under)
  }

  predicate ValidTake(w: World, item: int) { if item >= 0 then item < w.g.maxDevices else item in w.g.buckets }

  predicate Known(step: Step) {
    Chooses(step) || step.operation == TAKE || step.operation == EMIT || step.operation == SET_TRIES
        || step.operation == SET_LEAF_TRIES
  }

  /** One known step. */
  ghost function RunStep(w: World, t: Tunables, seed: Word, maximum: nat, step: Step, p: Progress): (q: Progress)
    requires Usable(w.g) && |p.result| <= maximum && Known(step)
    ensures |q.result| <= maximum
  {
    if step.operation == SET_TRIES then if step.argument1 > 0 then p.(tries := step.argument1) else p
    else if step.operation == SET_LEAF_TRIES then if step.argument1 > 0 then p.(leafTries := step.argument1) else p
    else if step.operation == TAKE then if ValidTake(w, step.argument1) then p.(working := [step.argument1]) else p
    else if step.operation == EMIT then
      p.(working := [], result := p.result + p.working[..Min(maximum - |p.result|, |p.working|)])
    else if p.working == [] then p
    else
      var (output, leaves) := ChooseAll(w, t, p.tries, p.leafTries, seed, maximum, step, p.working, [], []);
      p.(working := if step.operation == CHOOSELEAF_FIRST_N then leaves else output)
  }

  ghost function RunSteps(w: World, t: Tunables, seed: Word, maximum: nat, steps: seq<Step>, p: Progress): Placed
    requires Usable(w.g) && |p.result| <= maximum
    decreases |steps|
  {
    if steps == [] then Placed.Devices(p.result)
    else if !Known(steps[0]) then Invalid
    else RunSteps(w, t, seed, maximum, steps[1..], RunStep(w, t, seed, maximum, steps[0], p))
  }

  // ---------------------------------------------------------------- the certified profile

  predicate HasKind(g: Graph, kind: nat) { exists id :: id in g.buckets && g.buckets[id].kind == kind }

  predicate CertifiedShape(g: Graph, rule: Rule) {
    if rule.kind == REPLICATED then
      && |rule.steps| == 3 && rule.steps[0].operation == TAKE && rule.steps[2] == Step(EMIT, 0, 0)
      && (rule.steps[1] == Step(CHOOSE_FIRST_N, 0, 0)
          || (&& rule.steps[1].operation == CHOOSELEAF_FIRST_N && rule.steps[1].argument1 == 0
              && rule.steps[1].argument2 > 0 && HasKind(g, rule.steps[1].argument2 % 0x1_0000)))
    else
      && |rule.steps| == 5 && rule.steps[0] == Step(SET_LEAF_TRIES, 5, 0) && rule.steps[1] == Step(SET_TRIES, 100, 0)
      && rule.steps[2].operation == TAKE && rule.steps[3] == Step(CHOOSE_INDEP, 0, 0) && rule.steps[4].operation == EMIT
  }

  function TakeRoot(g: Graph, rule: Rule): int
    requires CertifiedShape(g, rule)
  {
    rule.steps[if rule.kind == REPLICATED then 0 else 2].argument1
  }

  const CERTIFIED := Tunables(0, 0, 50, 1, 1, 1)

  predicate Certified(m: CrushMap, rule: Rule) {
    && CertifiedShape(m.graph, rule)
    && TakeRoot(m.graph, rule) in m.graph.buckets && TakeRoot(m.graph, rule) !in m.shadows
    && m.tunables == CERTIFIED
  }

  // ---------------------------------------------------------------- what a certified rule places

  /** A certified replicated rule places distinct devices that are in range and not out,
      no more of them than were asked for. */
  lemma ReplicatedGood(w: World, rule: Rule, seed: Word, replicas: nat)
    requires Usable(w.g) && CertifiedShape(w.g, rule) && rule.kind == REPLICATED && TakeRoot(w.g, rule) in w.g.buckets
    requires replicas > 0
    ensures var placed := RunSteps(w, CERTIFIED, seed, replicas, rule.steps, Start(CERTIFIED));
            && placed.Devices? && |placed.items| <= replicas
            && Distinct(placed.items) && CrushSearch.Devices(w, seed, placed.items)
  {
    hide FirstN, Usable, Distinct, CrushSearch.Devices;
    var root, choose := TakeRoot(w.g, rule), rule.steps[1];
    FiledRoot(w.g, root);
    ThreeSteps(w, seed, replicas, rule.steps);
    OneRoot(w, 51, 0, seed, replicas, choose, root);
    var e := EffortOf(CERTIFIED, 51);
    NothingChosen(w, seed);
    FirstNGood(w, e, seed, choose.argument2, choose.operation == CHOOSELEAF_FIRST_N, 0, root, 0, replicas, replicas,
               [], []);
  }

  lemma NothingChosen(w: World, seed: Word)
    ensures Distinct([]) && CrushSearch.Devices(w, seed, [])
  {
  }

  lemma FiledRoot(g: Graph, root: int)
    requires Usable(g) && root in g.buckets
    ensures root < 0
  {
    assert Identified(root, g.buckets[root]);
  }

  /** Take one bucket, choose below it, emit: the emitted items are the chosen ones. */
  lemma ThreeSteps(w: World, seed: Word, maximum: nat, steps: seq<Step>)
    requires Usable(w.g) && |steps| == 3 && maximum > 0
    requires steps[0].operation == TAKE && steps[0].argument1 < 0 && steps[0].argument1 in w.g.buckets
    requires Chooses(steps[1]) && steps[2].operation == EMIT
    ensures var (output, leaves) := ChooseAll(w, CERTIFIED, 51, 0, seed, maximum, steps[1], [steps[0].argument1], [],
                                              []);
            RunSteps(w, CERTIFIED, seed, maximum, steps, Start(CERTIFIED))
            == Placed.Devices(if steps[1].operation == CHOOSELEAF_FIRST_N then leaves else output)
  {
    hide ChooseAll;
    var p1 := RunStep(w, CERTIFIED, seed, maximum, steps[0], Start(CERTIFIED));
    var p2 := RunStep(w, CERTIFIED, seed, maximum, steps[1], p1);
    var p3 := RunStep(w, CERTIFIED, seed, maximum, steps[2], p2);
    assert steps[1..][1..] == steps[2..] && steps[2..][1..] == [] && steps[1..][0] == steps[1];
    assert RunSteps(w, CERTIFIED, seed, maximum, [], p3) == Placed.Devices(p3.result);
    assert RunSteps(w, CERTIFIED, seed, maximum, steps[2..], p2) == Placed.Devices(p3.result);
    assert RunSteps(w, CERTIFIED, seed, maximum, steps[1..], p1) == Placed.Devices(p3.result);
    assert p2.working[..|p2.working|] == p2.working;
  }

  /** A working set of one bucket is chosen from once. */
  lemma OneRoot(w: World, tries: nat, leafTries: nat, seed: Word, maximum: nat, step: Step, root: int)
    requires Usable(w.g) && Chooses(step)
    ensures ChooseAll(w, CERTIFIED, tries, leafTries, seed, maximum, step, [root], [], []) ==
              ChooseIn(w, CERTIFIED, tries, leafTries, seed, maximum, step, root, 0)
  {
    hide ChooseIn;
    var (more, under) := ChooseIn(w, CERTIFIED, tries, leafTries, seed, maximum, step, root, 0);
    assert [] + more == more && [] + under == under && [root][1..] == [];
  }

  /** A certified erasure rule gives exactly the positions asked for, each empty or
      holding a device in range and not out, and no device twice. */
  lemma ErasureGood(w: World, rule: Rule, seed: Word, replicas: nat)
    requires Usable(w.g) && CertifiedShape(w.g, rule) && rule.kind != REPLICATED && TakeRoot(w.g, rule) in w.g.buckets
    requires replicas > 0
    ensures var placed := RunSteps(w, CERTIFIED, seed, replicas, rule.steps, Start(CERTIFIED));
            placed.Devices? && |placed.items| == replicas && SlotsGood(w, seed, 0, placed.items)
  {
    hide Indep, Usable, ChooseAll;
    var root := TakeRoot(w.g, rule);
    FiledRoot(w.g, root);
    FiveSteps(w, seed, replicas, rule.steps);
    OneRoot(w, 100, 5, seed, replicas, rule.steps[3], root);
    IndepGood(w, seed, AimOf(rule.steps[3], replicas, 5), 0, 0, 100, 0, root, AllEmpty(replicas));
  }

  lemma FiveSteps(w: World, seed: Word, maximum: nat, steps: seq<Step>)
    requires Usable(w.g) && |steps| == 5 && maximum > 0
    requires steps[0] == Step(SET_LEAF_TRIES, 5, 0) && steps[1] == Step(SET_TRIES, 100, 0)
    requires steps[2].operation == TAKE && steps[2].argument1 < 0 && steps[2].argument1 in w.g.buckets
    requires steps[3] == Step(CHOOSE_INDEP, 0, 0) && steps[4].operation == EMIT
    ensures RunSteps(w, CERTIFIED, seed, maximum, steps, Start(CERTIFIED))
            == Placed.Devices(ChooseAll(w, CERTIFIED, 100, 5, seed, maximum, steps[3], [steps[2].argument1], [], []).0)
  {
    hide ChooseAll;
    var p2 := Start(CERTIFIED).(tries := 100, leafTries := 5);
    var p3 := RunStep(w, CERTIFIED, seed, maximum, steps[2], p2);
    var p4 := RunStep(w, CERTIFIED, seed, maximum, steps[3], p3);
    var p5 := RunStep(w, CERTIFIED, seed, maximum, steps[4], p4);
    assert steps[1..][1..] == steps[2..] && steps[2..][1..] == steps[3..] && steps[3..][1..] == steps[4..]
        && steps[4..][1..] == [];
    assert RunSteps(w, CERTIFIED, seed, maximum, [], p5) == Placed.Devices(p5.result);
    assert RunSteps(w, CERTIFIED, seed, maximum, steps[4..], p4) == Placed.Devices(p5.result);
    assert RunSteps(w, CERTIFIED, seed, maximum, steps[3..], p3) == Placed.Devices(p5.result);
    assert RunSteps(w, CERTIFIED, seed, maximum, steps[2..], p2) == Placed.Devices(p5.result);
    assert RunSteps(w, CERTIFIED, seed, maximum, steps[1..], Start(CERTIFIED).(leafTries := 5)) ==
        Placed.Devices(p5.result);
    assert p4.working[..|p4.working|] == p4.working;
  }

  // ---------------------------------------------------------------- the interpreter as it runs

  /** Chooses below one bucket of the working set, writing behind the positions used so far. */
  method ChooseBelow(w: World, t: Tunables, tries: nat, leafTries: nat, caches: Permutation.Caches, seed: Word,
                     step: Step, root: int,
                     output: array<int>, leaves: array<int>, used: nat)
    returns (size: nat)
    requires Usable(w.g) && Chooses(step) && used <= output.Length == leaves.Length
    requires Serves(caches, w) && Apart(caches, output, leaves)
    modifies output, leaves, caches.Repr
    ensures Serves(caches, w) && fresh(caches.Repr - old(caches.Repr))
    ensures output[..used] == old(output[..used])
    ensures step.operation == CHOOSELEAF_FIRST_N ==> leaves[..used] == old(leaves[..used])
    ensures var (more, under) := ChooseIn(w, t, tries, leafTries, seed, output.Length, step, root, used);
            && size == used + |more| <= output.Length && output[used..size] == more
            && (step.operation == CHOOSELEAF_FIRST_N ==> leaves[used..size] == under)
  {
    hide FirstN, Indep, Usable, Serves;
    var number := step.argument1;
    if number <= 0 {
      number := number + output.Length;
      if number <= 0 { return used; }
    }
    if root !in w.g.buckets { return used; }
    if step.operation == CHOOSE_INDEP {
      var count := Min(number, output.Length - used);
      ChooseIndep(w, seed, AimOf(step, number, leafTries), count, output, used, tries, leaves, 0, root);
      return used + count;
    }
    var leafward := step.operation == CHOOSELEAF_FIRST_N;
    assert output[used..used + 0] == [] && leaves[used..used + 0] == [] && output[..used + 0] == output[..used]
        && leaves[..used + 0] == leaves[..used];
    var found := ChooseFirstN(w, EffortOf(t, tries), caches, seed, step.argument2, leafward, 0, root, 0, number,
                              output, leaves,
                              used, 0, output.Length - used, []);
    assert output[..used + 0] == output[..used] && leaves[..used + 0] == leaves[..used];
    return used + found;
  }

  /** A choosing step: all buckets of the working set in turn, then leaves in place of their items. */
  method ChooseStep(w: World, t: Tunables, tries: nat, leafTries: nat, caches: Permutation.Caches, seed: Word,
                    step: Step,
                    working: array<int>, size: nat, output: array<int>, leaves: array<int>)
    returns (outputSize: nat)
    requires Usable(w.g) && Chooses(step) && size <= working.Length == output.Length == leaves.Length
    requires working != output && working != leaves && working !in caches.Repr
    requires Serves(caches, w) && Apart(caches, output, leaves)
    modifies output, leaves, caches.Repr
    ensures Serves(caches, w) && fresh(caches.Repr - old(caches.Repr))
    ensures working !in caches.Repr && Apart(caches, output, leaves)
    ensures outputSize <= output.Length
    ensures var (items, under) := ChooseAll(w, t, tries, leafTries, seed, output.Length, step, working[..size], [], []);
            output[..outputSize] == if step.operation == CHOOSELEAF_FIRST_N then under else items
  {
    hide ChooseIn, Serves;
    outputSize := 0;
    ghost var under: seq<int> := [];
    ghost var goal := ChooseAll(w, t, tries, leafTries, seed, output.Length, step, working[..size], [], []);
    var index := 0;
    while index < size
      invariant Serves(caches, w) && Apart(caches, output, leaves) && fresh(caches.Repr - old(caches.Repr))
      invariant 0 <= index <= size && outputSize == |under| <= output.Length
      invariant step.operation == CHOOSELEAF_FIRST_N ==> leaves[..outputSize] == under
      invariant goal == ChooseAll(w, t, tries, leafTries, seed, output.Length, step, working[index..size],
                                  output[..outputSize], under)
    {
      ghost var before := output[..outputSize];
      ghost var more := ChooseIn(w, t, tries, leafTries, seed, output.Length, step, working[index], outputSize);
      ghost var used := outputSize;
      outputSize := ChooseBelow(w, t, tries, leafTries, caches, seed, step, working[index], output, leaves, outputSize);
      assert output[..outputSize] == before + more.0;
      assert step.operation == CHOOSELEAF_FIRST_N ==> leaves[..outputSize] == under + more.1;
      under := under + more.1;
      assert working[index..size][1..] == working[index + 1..size];
      index := index + 1;
    }
    assert goal == (output[..outputSize], under);
    if step.operation == CHOOSELEAF_FIRST_N { CopyLeaves(output, leaves, outputSize); }
  }

  method CopyLeaves(output: array<int>, leaves: array<int>, size: nat)
    requires size <= output.Length == leaves.Length && output != leaves
    modifies output
    ensures output[..size] == leaves[..size]
  {
    var i := 0;
    while i < size
      invariant 0 <= i <= size && output[..i] == leaves[..i]
    {
      output[i] := leaves[i];
      i := i + 1;
    }
  }

  /** Runs the steps of a rule over a pair of arrays that swap roles after every choice. */
  method RunRule(w: World, t: Tunables, steps: seq<Step>, seed: Word, maximum: nat) returns (placed: Placed)
    requires Usable(w.g) && maximum > 0
    ensures placed == RunSteps(w, t, seed, maximum, steps, Start(t))
  {
    hide ChooseAll, Serves, RunSteps, Usable;
    var working, output, leaves := new int[maximum], new int[maximum], new int[maximum];
    var size, result := 0, [];
    var tries: nat, leafTries: nat := t.totalTries + 1, 0;
    var caches := NewCaches(w);
    assert working[..size] == [];
    assert steps[0..] == steps;
    var i := 0;
    while i < |steps|
      invariant 0 <= i <= |steps| && size <= maximum && |result| <= maximum
      invariant working.Length == output.Length == leaves.Length == maximum
      invariant Serves(caches, w) && fresh(caches.Repr) && Apart(caches, output, leaves) && working !in caches.Repr
      invariant working != output && working != leaves && fresh(working) && fresh(output) && fresh(leaves)
      invariant RunSteps(w, t, seed, maximum, steps, Start(t))
                == RunSteps(w, t, seed, maximum, steps[i..], Progress(tries, leafTries, working[..size], result))
    {
      var step := steps[i];
      ghost var before := Progress(tries, leafTries, working[..size], result);
      RunsOn(w, t, seed, maximum, steps, i, before);
      if !Known(step) { return Invalid; }
      if step.operation == SET_TRIES {
        if step.argument1 > 0 { tries := step.argument1; }
      } else if step.operation == SET_LEAF_TRIES {
        if step.argument1 > 0 { leafTries := step.argument1; }
      } else if step.operation == TAKE {
        if ValidTake(w, step.argument1) {
          working[0] := step.argument1;
          size := 1;
          assert working[..size] == [step.argument1];
        }
      } else if step.operation == EMIT {
        var remaining := Min(maximum - |result|, size);
        assert working[..size][..remaining] == working[..remaining];
        result := result + working[..remaining];
        size := 0;
        assert working[..size] == [];
      } else if Chooses(step) && size > 0 {
        var chosen := ChooseStep(w, t, tries, leafTries, caches, seed, step, working, size, output, leaves);
        working, output := output, working;
        size := chosen;
      }
      assert Progress(tries, leafTries, working[..size], result) == RunStep(w, t, seed, maximum, step, before);
      i := i + 1;
    }
    RunsOut(w, t, seed, maximum, steps, Progress(tries, leafTries, working[..size], result));
    return Placed.Devices(result);
  }

  lemma RunsOn(w: World, t: Tunables, seed: Word, maximum: nat, steps: seq<Step>, i: nat, p: Progress)
    requires Usable(w.g) && |p.result| <= maximum && i < |steps|
    ensures RunSteps(w, t, seed, maximum, steps[i..], p)
            == if Known(steps[i]) then
                RunSteps(w, t, seed, maximum, steps[i + 1..], RunStep(w, t, seed, maximum, steps[i], p)) else Invalid
  {
    hide RunStep, Usable;
    assert steps[i..][0] == steps[i] && steps[i..][1..] == steps[i + 1..];
  }

  lemma RunsOut(w: World, t: Tunables, seed: Word, maximum: nat, steps: seq<Step>, p: Progress)
    requires Usable(w.g) && |p.result| <= maximum
    ensures RunSteps(w, t, seed, maximum, steps[|steps|..], p) == Placed.Devices(p.result)
  {
  }

  method FindKind(g: Graph, kind: nat) returns (found: bool)
    ensures found == HasKind(g, kind)
  {
    var left := g.buckets.Keys;
    while left != {}
      invariant left <= g.buckets.Keys
      invariant forall id :: id in g.buckets && id !in left ==> g.buckets[id].kind != kind
      decreases |left|
    {
      var id := PickMember(left);
      if g.buckets[id].kind == kind { return true; }
      left := left - {id};
    }
    return false;
  }

  method Certify(m: CrushMap, rule: Rule) returns (ok: bool)
    ensures ok == Certified(m, rule)
  {
    var takeIndex := 0;
    if rule.kind == REPLICATED {
      if |rule.steps| != 3 || rule.steps[0].operation != TAKE || rule.steps[2] != Step(EMIT, 0, 0) { return false; }
      var choose := rule.steps[1];
      if choose != Step(CHOOSE_FIRST_N, 0, 0) {
        if choose.operation != CHOOSELEAF_FIRST_N || choose.argument1 != 0 || choose.argument2 <= 0 { return false; }
        var known := FindKind(m.graph, choose.argument2 % 0x1_0000);
        if !known { return false; }
      }
    } else {
      if |rule.steps| != 5 || rule.steps[0] != Step(SET_LEAF_TRIES, 5, 0) || rule.steps[1] != Step(SET_TRIES, 100, 0)
         || rule.steps[2].operation != TAKE || rule.steps[3] != Step(CHOOSE_INDEP, 0, 0)
         || rule.steps[4].operation != EMIT {
        return false;
      }
      takeIndex := 2;
    }
    return && rule.steps[takeIndex].argument1 in m.graph.buckets && rule.steps[takeIndex].argument1 !in m.shadows
           && m.tunables == CERTIFIED;
  }

  /** What callers of placement are promised. */
  ghost predicate PlacedGood(w: World, rule: Rule, seed: Word, replicas: nat, items: seq<int>) {
    if rule.kind == REPLICATED
    then |items| <= replicas && Distinct(items) && CrushSearch.Devices(w, seed, items)
    else |items| == replicas && SlotsGood(w, seed, 0, items)
  }

  ghost predicate Placeable(m: CrushMap, ruleId: nat, replicas: int) {
    && 0 < replicas <= MAX_REPLICAS && ruleId in m.rules
    && (m.rules[ruleId].kind == REPLICATED || m.rules[ruleId].kind == ERASURE)
    && Certified(m, m.rules[ruleId]) && Usable(m.graph)
  }

  /** Placement succeeds exactly for certified rules over usable graphs, and then places
      what the rule says, with every promise kept. */
  method Place(m: CrushMap, mixer: Mixer, ruleId: nat, seed: Word, replicas: int,
               weights: seq<Word>) returns (placed: Placed)
    ensures placed.Devices? <==> Placeable(m, ruleId, replicas)
    ensures placed.Devices? ==>
              var w := World(m.graph, weights, mixer);
              && Usable(w.g)
              && placed == RunSteps(w, m.tunables, seed, replicas, m.rules[ruleId].steps, Start(m.tunables))
              && PlacedGood(w, m.rules[ruleId], seed, replicas, placed.items)
  {
    hide Usable, RunSteps, SlotsGood, Distinct, CrushSearch.Devices, CertifiedShape;
    if replicas <= 0 || replicas > MAX_REPLICAS || ruleId !in m.rules { return Invalid; }
    var rule := m.rules[ruleId];
    if rule.kind != REPLICATED && rule.kind != ERASURE { return Invalid; }
    var certified := Certify(m, rule);
    if !certified { return Invalid; }
    var verdict := Validate(m.graph);
    if verdict.Refused? { return Invalid; }
    var w := World(m.graph, weights, mixer);
    placed := RunRule(w, m.tunables, rule.steps, seed, replicas);
    if rule.kind == REPLICATED { ReplicatedGood(w, rule, seed, replicas); }
        else { ErasureGood(w, rule, seed, replicas); }
  }
}
