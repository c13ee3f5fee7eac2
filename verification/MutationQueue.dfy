/** Admission, completion and flushing of mutations. */
module MutationQueue {
  import opened Common
  import opened Ledger

  datatype Admission = Admitted(sequence: nat, transaction: nat) | Wait | Closed | TooLarge | Exhausted

  /** What one look of a flush at the queue finds. */
  datatype Flushed = Clean | Unknown | Waiting

  /** How a flush ends: clean, with an unknown outcome, or because its caller gave up. */
  datatype FlushEnd = Done | DoneUnknown | GivenUp(unknown: bool)

  /** What others may do to the queue meanwhile. */
  datatype Action = Admitting(bytes: nat) | Completing(sequence: nat, isUnknown: bool) | Numbering | ShuttingDown

  /** The bytes retained are those of the pending mutations, and both limits hold. */
  ghost predicate Counted(order: seq<nat>, pending: map<nat, nat>, retained: nat, maxBytes: nat, maxMutations: nat) {
    Lists(order, pending) && retained == Total(order, pending) <= maxBytes && |order| <= maxMutations
  }

  /** Every mutation admitted so far is pending or completed, never both. */
  ghost predicate Accounted(nextMutation: nat, pending: map<nat, nat>, outcomes: map<nat, bool>, unknown: nat) {
    && nextMutation <= MAX_UINT64
    && (forall s :: s in pending || s in outcomes <==> 1 <= s <= nextMutation)
    && (forall s :: s in pending ==> s !in outcomes)
    && (if unknown == 0 then forall s :: s in outcomes ==> !outcomes[s]
        else unknown in outcomes && outcomes[unknown] && forall s :: s in outcomes && outcomes[s] ==> unknown <= s)
  }

  /** Transaction ids only grow. */
  ghost predicate Distinct(nextTransaction: nat, issued: seq<nat>) {
    && nextTransaction <= MAX_UINT64
    && (forall i, j :: 0 <= i < j < |issued| ==> issued[i] < issued[j])
    && (forall i :: 0 <= i < |issued| ==> 0 < issued[i] < nextTransaction)
  }

  lemma AdmitAccounted(next: nat, pending: map<nat, nat>, outcomes: map<nat, bool>, unknown: nat, bytes: nat)
    requires Accounted(next, pending, outcomes, unknown) && next != MAX_UINT64
    ensures Accounted(next + 1, pending[next + 1 := bytes], outcomes, unknown) && next + 1 !in pending
            && next + 1 !in outcomes
  {
  }

  lemma TakeDistinct(next: nat, issued: seq<nat>)
    requires Distinct(next, issued) && next != MAX_UINT64
    ensures var id := if next == 0 then 1 else next; Distinct(id + 1, issued + [id]) && id !in issued
  {
  }

  lemma CompleteAccounted(next: nat, pending: map<nat, nat>, outcomes: map<nat, bool>, unknown: nat, sequence: nat,
                          isUnknown: bool)
    requires Accounted(next, pending, outcomes, unknown) && sequence in pending
    ensures Accounted(next, pending - {sequence}, outcomes[sequence := isUnknown],
                      if isUnknown && (unknown == 0 || sequence < unknown) then sequence else unknown)
  {
  }

  /** One step that holds the client's lock is one call. */
  class Queue {
    const maxMutations: nat
    const maxBytes: nat
    var pending: map<nat, nat>
    var retained: nat
    var nextMutation: nat
    var nextTransaction: nat
    /** The least mutation whose outcome is unknown; zero when there is none. */
    var unknown: nat
    var closed: bool
    ghost var order: seq<nat>
    /** Every completed mutation, and whether its outcome is unknown. */
    ghost var outcomes: map<nat, bool>
    /** Every transaction id given out, in order. */
    ghost var issued: seq<nat>

    constructor (maxMutations: nat, maxBytes: nat, firstTransaction: nat)
      requires maxBytes <= MAX_UINT64 && firstTransaction <= MAX_UINT64
      ensures Valid() && pending == map[] && outcomes == map[] && issued == [] && !closed
    {
      this.maxMutations, this.maxBytes := maxMutations, maxBytes;
      pending, retained, nextMutation, nextTransaction, unknown, closed := map[], 0, 0, firstTransaction, 0, false;
      order, outcomes, issued := [], map[], [];
    }

    ghost predicate Valid()
      reads this
    {
      && Counted(order, pending, retained, maxBytes, maxMutations)
      && Accounted(nextMutation, pending, outcomes, unknown)
      && Distinct(nextTransaction, issued)
    }

    /** One attempt at admission. */
    method Admit(bytes: nat) returns (r: Admission)
      requires Valid()
      modifies this
      ensures Valid() && outcomes == old(outcomes) && unknown == old(unknown) && closed == old(closed)
      ensures r == if bytes > maxBytes then TooLarge else if old(closed) then Closed
                   else if |old(pending)| >= maxMutations || old(retained) + bytes > maxBytes then Wait
                   else if old(nextMutation) == MAX_UINT64 || old(nextTransaction) == MAX_UINT64 then Exhausted
                   else Admitted(old(nextMutation) + 1, if old(nextTransaction) == 0 then 1 else old(nextTransaction))
      ensures r.Admitted? ==>
                && pending == old(pending)[r.sequence := bytes] && r.sequence !in old(pending)
                   && r.sequence !in outcomes
                && nextMutation == r.sequence && issued == old(issued) + [r.transaction]
                   && r.transaction !in old(issued)
      ensures !r.Admitted? ==> pending == old(pending) && nextMutation == old(nextMutation) && issued == old(issued)
    {
      hide Lists, Total, Accounted, Distinct;
      if bytes > maxBytes { return TooLarge; }
      if closed { return Closed; }
      OrderSize(order, pending);
      if |pending| < maxMutations && bytes <= maxBytes - retained {
        if nextMutation == MAX_UINT64 || nextTransaction == MAX_UINT64 { return Exhausted; }
        AdmitAccounted(nextMutation, pending, outcomes, unknown, bytes);
        TakeDistinct(nextTransaction, issued);
        nextMutation := nextMutation + 1;
        var transaction := if nextTransaction == 0 then 1 else nextTransaction;
        nextTransaction := transaction + 1;
        Entered(order, pending, nextMutation, bytes);
        pending := pending[nextMutation := bytes];
        retained := retained + bytes;
        order := order + [nextMutation];
        issued := issued + [transaction];
        return Admitted(nextMutation, transaction);
      }
      return Wait;
    }

    /** Records the outcome of a mutation that is still pending. */
    method Complete(sequence: nat, isUnknown: bool)
      requires Valid()
      modifies this
      ensures Valid() && nextMutation == old(nextMutation) && issued == old(issued) && closed == old(closed)
      ensures if sequence in old(pending) then pending == old(pending) - {sequence}
              && outcomes == old(outcomes)[sequence := isUnknown]
              else pending == old(pending) && outcomes == old(outcomes)
    {
      hide Lists, Total, Accounted, Distinct;
      if sequence in pending {
        CompleteAccounted(nextMutation, pending, outcomes, unknown, sequence, isUnknown);
        Struck(order, pending, sequence);
        retained := retained - pending[sequence];
        DroppedSize(order, sequence);
        order := Dropped(order, sequence);
        pending := pending - {sequence};
        outcomes := outcomes[sequence := isUnknown];
        if isUnknown && (unknown == 0 || sequence < unknown) { unknown := sequence; }
      }
    }

    /** A transaction id for a request that is no mutation. */
    method TakeTransaction() returns (r: Option<nat>)
      requires Valid()
      modifies `nextTransaction, `issued
      ensures Valid()
      ensures r == if old(nextTransaction) == MAX_UINT64 then None
                   else Some(if old(nextTransaction) == 0 then 1 else old(nextTransaction))
      ensures r.Some? ==> r.value !in old(issued)
      ensures issued == old(issued) + if r.Some? then [r.value] else []
    {
      hide Lists, Total, Accounted, Distinct;
      if nextTransaction == MAX_UINT64 { return None; }
      TakeDistinct(nextTransaction, issued);
      var transaction := if nextTransaction == 0 then 1 else nextTransaction;
      nextTransaction := transaction + 1;
      issued := issued + [transaction];
      return Some(transaction);
    }

    /** No new mutations; what is pending goes on. */
    method BeginShutdown()
      requires Valid()
      modifies `closed
      ensures Valid() && closed
    {
      closed := true;
    }

    /** Whatever others do: outcomes stay, numbers and ids only grow, and once the queue is closed
        it stays closed and nothing is admitted any more. */
    method Others(actions: seq<Action>)
      requires Valid()
      modifies this
      ensures Valid() && old(nextMutation) <= nextMutation && old(issued) <= issued && (old(closed) ==> closed)
      ensures forall s :: s in old(outcomes) ==> s in outcomes && outcomes[s] == old(outcomes)[s]
      ensures old(closed) ==> nextMutation == old(nextMutation) && pending.Keys <= old(pending).Keys
    {
      hide Valid;
      for i := 0 to |actions|
        invariant Valid() && old(nextMutation) <= nextMutation && old(issued) <= issued && (old(closed) ==> closed)
        invariant forall s :: s in old(outcomes) ==> s in outcomes && outcomes[s] == old(outcomes)[s]
        invariant old(closed) ==> nextMutation == old(nextMutation) && pending.Keys <= old(pending).Keys
      {
        match actions[i] {
          case Admitting(bytes) => {
            var r := Admit(bytes);
          }
          case Completing(sequence, isUnknown) => {
            KeepsOutcomes();
            Complete(sequence, isUnknown);
          }
          case Numbering => {
            var r := TakeTransaction();
          }
          case ShuttingDown => {
            BeginShutdown();
          }
        }
      }
    }

    lemma KeepsOutcomes()
      requires Valid()
      ensures forall s :: s in pending ==> s !in outcomes
    {
    }

    /** A flush covers the mutations admitted before it began, whatever is admitted or completed
        between its looks; `meanwhile` is what others do before each look after the first, and
        the caller gives up when it ends. */
    method Flush(meanwhile: seq<seq<Action>>) returns (r: FlushEnd)
      requires Valid()
      modifies this
      ensures Valid() && forall s :: s in old(outcomes) ==> s in outcomes && outcomes[s] == old(outcomes)[s]
      ensures r == Done ==> forall s :: 1 <= s <= old(nextMutation) ==> s in outcomes && !outcomes[s]
      ensures r == DoneUnknown ==>
                && (forall s :: 1 <= s <= old(nextMutation) ==> s in outcomes)
                && exists s :: 1 <= s <= old(nextMutation) && outcomes[s]
      ensures r.GivenUp? ==> (r.unknown <==> exists s :: 1 <= s <= old(nextMutation) && s in outcomes && outcomes[s])
    {
      hide Valid;
      var watermark := Watermark();
      for i := 0 to |meanwhile|
        invariant Valid() && watermark == old(nextMutation) <= nextMutation
        invariant forall s :: s in old(outcomes) ==> s in outcomes && outcomes[s] == old(outcomes)[s]
      {
        var look := Look(watermark);
        match look {
          case Clean => { return Done; }
          case Unknown => { return DoneUnknown; }
          case Waiting => {
          }
        }
        Others(meanwhile[i]);
      }
      var last := Look(watermark);
      match last {
        case Clean => { return Done; }
        case Unknown => { return DoneUnknown; }
        case Waiting => {
        }
      }
      var known := AnyUnknown(watermark);
      return GivenUp(known);
    }

    method AnyUnknown(watermark: nat) returns (r: bool)
      requires Valid()
      ensures r <==> exists s :: 1 <= s <= watermark && s in outcomes && outcomes[s]
    {
      r := unknown != 0 && unknown <= watermark;
      if r { assert 1 <= unknown && outcomes[unknown]; }
    }

    /** The mutations a flush waits for are those admitted so far. */
    method Watermark() returns (watermark: nat)
      requires Valid()
      ensures forall s :: s in pending || s in outcomes ==> s <= watermark
      ensures watermark == nextMutation
    {
      return nextMutation;
    }

    /** One look of a flush. It is over exactly when every mutation up to the watermark has
        completed, and clean exactly when none of those ended with its outcome unknown. */
    method Look(watermark: nat) returns (r: Flushed)
      requires Valid() && watermark <= nextMutation
      ensures r == Waiting <==> exists s :: 1 <= s <= watermark && s !in outcomes
      ensures r == Clean <==> forall s :: 1 <= s <= watermark ==> s in outcomes && !outcomes[s]
      ensures r == Unknown <==>
                (forall s :: 1 <= s <= watermark ==> s in outcomes) && exists s :: 1 <= s <= watermark && outcomes[s]
    {
      var keys := pending.Keys;
      while keys != {}
        invariant keys <= pending.Keys && forall s :: s in pending && s !in keys ==> s > watermark
        decreases |keys|
      {
        var s := PickMember(keys);
        if s <= watermark {
          assert 1 <= s && s !in outcomes;
          return Waiting;
        }
        keys := keys - {s};
      }
      assert forall s :: 1 <= s <= watermark ==> s in outcomes;
      if unknown != 0 && unknown <= watermark {
        assert 1 <= unknown && outcomes[unknown];
        return Unknown;
      }
      return Clean;
    }
  }

  lemma {:induction false} DroppedSize(order: seq<nat>, k: nat)
    ensures |Dropped(order, k)| <= |order|
  {
    if order != [] && order[0] != k { DroppedSize(order[1..], k); }
  }

  lemma {:induction false} OrderSize(order: seq<nat>, m: map<nat, nat>)
    requires Lists(order, m)
    ensures |order| == |m|
    decreases |order|
  {
    if order == [] {
      NoKeys(m);
    } else {
      var rest := m - {order[0]};
      forall k ensures k in order[1..] <==> k in rest { TailMember(order, k); }
      OrderSize(order[1..], rest);
      assert m.Keys == rest.Keys + {order[0]};
      assert |m.Keys| == |m| && |rest.Keys| == |rest|;
    }
  }

  lemma TailMember(order: seq<nat>, k: nat)
    requires order != [] && forall i, j :: 0 <= i < j < |order| ==> order[i] != order[j]
    ensures k in order[1..] <==> k in order && k != order[0]
  {
  }

  lemma NoKeys(m: map<nat, nat>)
    requires forall k :: k !in m
    ensures |m| == 0
  {
    assert m == map[];
  }
}
