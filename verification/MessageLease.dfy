/** The reference count of a leased message payload, under any interleaving of its holders. */
module MessageLease {

  const MAX_INT64 := 0x7fff_ffff_ffff_ffff

  /** The shared count, how often the payload was reclaimed, and what each thread that is
      retaining has read of the count. */
  datatype Lease = Lease(references: int, reclaimed: nat, loaded: map<nat, int>)

  /** One atomic step of some thread. A retain reads the count and then swaps it; other
      threads may come in between, and then it reads again. */
  datatype Action = Load(thread: nat) | Swap(thread: nat) | Release

  function Fresh(): Lease { Lease(1, 0, map[]) }

  function Step(l: Lease, a: Action): (m: Lease) {
    match a
    case Load(t) => l.(loaded := l.loaded[t := l.references])
    case Swap(t) =>
      if t !in l.loaded || l.loaded[t] <= 0 || l.loaded[t] == MAX_INT64 || l.loaded[t] != l.references then l
      else l.(references := l.references + 1, loaded := l.loaded - {t})
    case Release =>
      if l.references - 1 == 0 then l.(references := 0, reclaimed := l.reclaimed + 1)
      else l.(references := l.references - 1)
  }

  predicate IsRun(actions: seq<Action>, states: seq<Lease>) {
    && |states| == |actions| + 1 && states[0] == Fresh()
    && forall i :: 0 <= i < |actions| ==> states[i + 1] == Step(states[i], actions[i])
  }

  /** Reclaimed once the count is used up, and only then. */
  predicate Sound(l: Lease) { l.reclaimed == (if l.references > 0 then 0 else 1) && l.references <= MAX_INT64 }

  lemma {:induction false} RunSound(actions: seq<Action>, states: seq<Lease>, i: nat)
    requires IsRun(actions, states) && i < |states|
    ensures Sound(states[i])
  {
    if i > 0 { RunSound(actions, states, i - 1); }
  }

  /** Whatever its holders do, the payload is reclaimed at most once, and not while the count
      says that it is held. */
  lemma ReclaimedOnce(actions: seq<Action>, states: seq<Lease>, i: nat)
    requires IsRun(actions, states) && i < |states|
    ensures states[i].reclaimed <= 1 && (states[i].references > 0 <==> states[i].reclaimed == 0)
  {
    RunSound(actions, states, i);
  }

  /** How many holders there are: the first, those whose swap succeeded, less those released. */
  function Holders(actions: seq<Action>, states: seq<Lease>, i: nat): (n: int)
    requires IsRun(actions, states) && i < |states|
  {
    if i == 0 then 1
    else Holders(actions, states, i - 1)
         + (if actions[i - 1].Release? then -1
            else if actions[i - 1].Swap? && states[i].references != states[i - 1].references then 1 else 0)
  }

  /** The count is the number of holders, so a payload with a holder left is not reclaimed. */
  lemma {:induction false} HeldIsKept(actions: seq<Action>, states: seq<Lease>, i: nat)
    requires IsRun(actions, states) && i < |states|
    ensures states[i].references == Holders(actions, states, i)
    ensures Holders(actions, states, i) > 0 ==> states[i].reclaimed == 0
  {
    RunSound(actions, states, i);
    if i > 0 { HeldIsKept(actions, states, i - 1); }
  }

  /** Once reclaimed, no retain succeeds any more. */
  lemma {:induction false} NeverRevived(actions: seq<Action>, states: seq<Lease>, i: nat, j: nat)
    requires IsRun(actions, states) && i <= j < |states| && states[i].reclaimed == 1
    ensures states[j].references <= 0 && states[j].reclaimed == 1
  {
    RunSound(actions, states, i);
    if i < j { NeverRevived(actions, states, i, j - 1); }
  }
}
