/** The owner's request table as it is kept: one record per request, held in a
    swap-remove array, a doubly linked list in admission order, two maps and a
    second array and list for the requests to replay, with running counters. */
module RequestTable {
  import opened SessionState
  import opened SessionSteps

  class Pending {
    const id: RequestId
    const tid: nat
    const bytes: nat
    const control: bool
    const oneWay: bool
    const generation: nat
    var sequence: nat
    var sent: bool
    var mayHaveExecuted: bool
    var previous: Pending?
    var next: Pending?
    var replayPrevious: Pending?
    var replayNext: Pending?
    var pendingIndex: int
    var replayIndex: int
    var inReplay: bool

    constructor (row: Entry)
      ensures Row() == row
      ensures !inReplay
    {
      id, tid, bytes, control, oneWay, generation := row.id, row.tid, row.bytes, row.control, row.oneWay,
          row.generation;
      sequence, sent, mayHaveExecuted := row.sequence, row.sent, row.mayHaveExecuted;
      previous, next, replayPrevious, replayNext := null, null, null, null;
      pendingIndex, replayIndex, inReplay := -1, -1, false;
    }

    function Row(): (row: Entry)
      reads this`sequence, this`sent, this`mayHaveExecuted
    {
      Entry(id, tid, bytes, control, oneWay, generation, sequence, sent, mayHaveExecuted)
    }
  }

  // ---------------------------------------------------------------- shape

  ghost predicate Distinct(order: seq<Pending>) {
    forall i, j :: 0 <= i < j < |order| ==> order[i] != order[j]
  }

  ghost function Nodes(order: seq<Pending>): (nodes: set<Pending>) {
    set i | 0 <= i < |order| :: order[i]
  }

  ghost function At(order: seq<Pending>, i: int): (node: Pending?) {
    if 0 <= i < |order| then order[i] else null
  }

  ghost function Pop(order: seq<Pending>, k: nat): (rest: seq<Pending>)
    requires k < |order|
  {
    order[..k] + order[k + 1..]
  }

  /** `head`, `tail` and the links spell out `order`. */
  ghost predicate Chained(order: seq<Pending>, head: Pending?, tail: Pending?)
    reads Nodes(order)`next, Nodes(order)`previous
  {
    && head == At(order, 0)
    && tail == At(order, |order| - 1)
    && (forall i {:trigger order[i].next} :: 0 <= i < |order| ==> order[i].next == At(order, i + 1))
    && (forall i {:trigger order[i].previous} :: 0 <= i < |order| ==> order[i].previous == At(order, i - 1))
  }

  ghost predicate ReplayChained(order: seq<Pending>, head: Pending?, tail: Pending?)
    reads Nodes(order)`replayNext, Nodes(order)`replayPrevious
  {
    && head == At(order, 0)
    && tail == At(order, |order| - 1)
    && (forall i {:trigger order[i].replayNext} :: 0 <= i < |order| ==> order[i].replayNext == At(order, i + 1))
    && (forall i {:trigger order[i].replayPrevious} :: 0 <= i < |order| ==> order[i].replayPrevious == At(order, i - 1))
  }

  /** The array holds exactly the nodes of `order`, and each node knows its slot. */
  ghost predicate Slotted(order: seq<Pending>, slots: seq<Pending>)
    reads Nodes(order)`pendingIndex
  {
    && |slots| == |order|
    && (forall i {:trigger order[i].pendingIndex} :: 0 <= i < |order| ==>
          0 <= order[i].pendingIndex < |slots| && slots[order[i].pendingIndex] == order[i])
    && (forall j {:trigger slots[j]} :: 0 <= j < |slots| ==> slots[j] in Nodes(order) && slots[j].pendingIndex == j)
  }

  ghost predicate ReplaySlotted(order: seq<Pending>, slots: seq<Pending>)
    reads Nodes(order)`replayIndex
  {
    && |slots| == |order|
    && (forall i {:trigger order[i].replayIndex} :: 0 <= i < |order| ==>
          0 <= order[i].replayIndex < |slots| && slots[order[i].replayIndex] == order[i])
    && (forall j {:trigger slots[j]} :: 0 <= j < |slots| ==> slots[j] in Nodes(order) && slots[j].replayIndex == j)
  }

  /** The two maps index the nodes of `order` by request and by transaction. */
  ghost predicate Mapped(order: seq<Pending>, byRequest: map<RequestId, Pending>, byTid: map<nat, Pending>) {
    && (forall i :: 0 <= i < |order| ==> order[i].id in byRequest && byRequest[order[i].id] == order[i])
    && (forall id :: id in byRequest ==> byRequest[id] in Nodes(order) && byRequest[id].id == id)
    && (forall i :: 0 <= i < |order| ==> order[i].tid in byTid && byTid[order[i].tid] == order[i])
    && (forall tid :: tid in byTid ==> byTid[tid] in Nodes(order) && byTid[tid].tid == tid)
  }

  lemma PopNodes(order: seq<Pending>, k: nat)
    requires Distinct(order) && k < |order|
    ensures Nodes(Pop(order, k)) == Nodes(order) - {order[k]}
    ensures Distinct(Pop(order, k))
  {
    var rest := Pop(order, k);
    forall i | 0 <= i < |order| && i != k
      ensures order[i] in Nodes(rest)
    {
      assert rest[if i < k then i else i - 1] == order[i];
    }
  }

  lemma IndexOf(order: seq<Pending>, node: Pending) returns (k: nat)
    requires node in Nodes(order)
    ensures k < |order| && order[k] == node
  {
    k :| 0 <= k < |order| && order[k] == node;
  }

  lemma PushNodes(order: seq<Pending>, node: Pending)
    ensures Nodes(order + [node]) == Nodes(order) + {node}
    ensures Distinct(order) && node !in Nodes(order) ==> Distinct(order + [node])
  {
    var more := order + [node];
    forall i | 0 <= i < |order|
      ensures order[i] in Nodes(more) && order[i] in Nodes(order)
    {
      assert more[i] == order[i];
    }
    assert more[|order|] == node;
  }

  /** Swap-remove of one slot. */
  function Evict(slots: seq<Pending>, index: nat): (rest: seq<Pending>)
    requires index < |slots|
  {
    slots[index := slots[|slots| - 1]][..|slots| - 1]
  }

  // ---------------------------------------------------------------- unlinking

  /** The links around a gap at `k`. */
  ghost predicate Bridged(order: seq<Pending>, k: nat)
    requires k < |order|
    reads Nodes(order)`next, Nodes(order)`previous
  {
    && (forall i {:trigger order[i].next} :: 0 <= i < |order| && i != k ==>
          order[i].next == At(order, if i + 1 == k then k + 1 else i + 1))
    && (forall i {:trigger order[i].previous} :: 0 <= i < |order| && i != k ==>
          order[i].previous == At(order, if i == k + 1 then k - 1 else i - 1))
  }

  lemma BridgedIsChained(order: seq<Pending>, k: nat)
    requires k < |order| && Bridged(order, k)
    ensures Chained(Pop(order, k), At(Pop(order, k), 0), At(Pop(order, k), |order| - 2))
  {
    var rest := Pop(order, k);
    forall i | 0 <= i < |rest|
      ensures rest[i].next == At(rest, i + 1) && rest[i].previous == At(rest, i - 1)
    {
      var j := if i < k then i else i + 1;
      assert rest[i] == order[j];
    }
  }

  ghost predicate ReplayBridged(order: seq<Pending>, k: nat)
    requires k < |order|
    reads Nodes(order)`replayNext, Nodes(order)`replayPrevious
  {
    && (forall i {:trigger order[i].replayNext} :: 0 <= i < |order| && i != k ==>
          order[i].replayNext == At(order, if i + 1 == k then k + 1 else i + 1))
    && (forall i {:trigger order[i].replayPrevious} :: 0 <= i < |order| && i != k ==>
          order[i].replayPrevious == At(order, if i == k + 1 then k - 1 else i - 1))
  }

  lemma ReplayBridgedIsChained(order: seq<Pending>, k: nat)
    requires k < |order| && ReplayBridged(order, k)
    ensures ReplayChained(Pop(order, k), At(Pop(order, k), 0), At(Pop(order, k), |order| - 2))
  {
    var rest := Pop(order, k);
    forall i | 0 <= i < |rest|
      ensures rest[i].replayNext == At(rest, i + 1) && rest[i].replayPrevious == At(rest, i - 1)
    {
      var j := if i < k then i else i + 1;
      assert rest[i] == order[j];
    }
  }

  /** Cut one node out of the admission list. */
  method Unlink(target: Pending, head: Pending?, tail: Pending?, ghost order: seq<Pending>, ghost k: nat)
    returns (head': Pending?, tail': Pending?)
    requires Distinct(order) && k < |order| && order[k] == target && Chained(order, head, tail)
    modifies Nodes(order)`next, Nodes(order)`previous
    ensures Chained(Pop(order, k), head', tail')
  {
    head', tail' := head, tail;
    assert target.next == At(order, k + 1) && target.previous == At(order, k - 1);
    if target.previous == null { head' := target.next; } else { target.previous.next := target.next; }
    if target.next == null { tail' := target.previous; } else { target.next.previous := target.previous; }
    target.previous, target.next := null, null;
    BridgedIsChained(order, k);
  }

  method UnlinkReplay(target: Pending, head: Pending?, tail: Pending?, ghost order: seq<Pending>, ghost k: nat)
    returns (head': Pending?, tail': Pending?)
    requires Distinct(order) && k < |order| && order[k] == target && ReplayChained(order, head, tail)
    modifies Nodes(order)`replayNext, Nodes(order)`replayPrevious
    ensures ReplayChained(Pop(order, k), head', tail')
  {
    head', tail' := head, tail;
    assert target.replayNext == At(order, k + 1) && target.replayPrevious == At(order, k - 1);
    if target.replayPrevious == null { head' := target.replayNext; }
        else { target.replayPrevious.replayNext := target.replayNext; }
    if target.replayNext == null { tail' := target.replayPrevious; }
        else { target.replayNext.replayPrevious := target.replayPrevious; }
    target.replayPrevious, target.replayNext := null, null;
    ReplayBridgedIsChained(order, k);
  }

  /** Take one node out of its slot; the last node moves into it. */
  method SwapRemove(target: Pending, slots: seq<Pending>, ghost order: seq<Pending>, ghost k: nat)
    returns (slots': seq<Pending>)
    requires Distinct(order) && k < |order| && order[k] == target && Slotted(order, slots)
    modifies Nodes(order)`pendingIndex
    ensures Slotted(Pop(order, k), slots')
    ensures 0 <= old(target.pendingIndex) < |slots| && slots' == Evict(slots, old(target.pendingIndex))
  {
    var index := target.pendingIndex;
    var moved := slots[|slots| - 1];
    slots' := Evict(slots, index);
    moved.pendingIndex := index;
    target.pendingIndex := -1;
    PopNodes(order, k);
    ghost var rest := Pop(order, k);
    forall i | 0 <= i < |rest|
      ensures 0 <= rest[i].pendingIndex < |slots'| && slots'[rest[i].pendingIndex] == rest[i]
    {
      var j := if i < k then i else i + 1;
      assert rest[i] == order[j] && order[j] != target;
      assert slots[old(order[j].pendingIndex)] == order[j];
    }
    forall j | 0 <= j < |slots'|
      ensures slots'[j] in Nodes(rest) && slots'[j].pendingIndex == j
    {
      assert slots'[j] == if j == index then moved else slots[j];
      assert old(slots[j].pendingIndex) == j;
    }
  }

  method SwapRemoveReplay(target: Pending, slots: seq<Pending>, ghost order: seq<Pending>, ghost k: nat)
    returns (slots': seq<Pending>)
    requires Distinct(order) && k < |order| && order[k] == target && ReplaySlotted(order, slots)
    modifies Nodes(order)`replayIndex
    ensures ReplaySlotted(Pop(order, k), slots')
  {
    var index := target.replayIndex;
    var moved := slots[|slots| - 1];
    slots' := Evict(slots, index);
    moved.replayIndex := index;
    target.replayIndex := -1;
    PopNodes(order, k);
    ghost var rest := Pop(order, k);
    forall i | 0 <= i < |rest|
      ensures 0 <= rest[i].replayIndex < |slots'| && slots'[rest[i].replayIndex] == rest[i]
    {
      var j := if i < k then i else i + 1;
      assert rest[i] == order[j] && order[j] != target;
      assert slots[old(order[j].replayIndex)] == order[j];
    }
    forall j | 0 <= j < |slots'|
      ensures slots'[j] in Nodes(rest) && slots'[j].replayIndex == j
    {
      assert slots'[j] == if j == index then moved else slots[j];
      assert old(slots[j].replayIndex) == j;
    }
  }

  /** Out of the slot and out of the list. */
  method CutNode(target: Pending, slots: seq<Pending>, head: Pending?, tail: Pending?, ghost order: seq<Pending>,
                 ghost k: nat)
    returns (slots': seq<Pending>, head': Pending?, tail': Pending?)
    requires Distinct(order) && k < |order| && order[k] == target && Chained(order, head, tail) && Slotted(order, slots)
    modifies Nodes(order)`next, Nodes(order)`previous, Nodes(order)`pendingIndex
    ensures Chained(Pop(order, k), head', tail') && Slotted(Pop(order, k), slots')
    ensures 0 <= old(target.pendingIndex) < |slots| && slots' == Evict(slots, old(target.pendingIndex))
  {
    hide Pop;
    slots' := SwapRemove(target, slots, order, k);
    assert Chained(order, head, tail);
    PopNodes(order, k);
    ghost var rest := Pop(order, k);
    head', tail' := Unlink(target, head, tail, order, k);
    assert Slotted(rest, slots');
  }

  // ---------------------------------------------------------------- appending

  method LinkLast(node: Pending, head: Pending?, tail: Pending?, ghost order: seq<Pending>)
    returns (head': Pending?, tail': Pending?)
    requires Distinct(order) && Chained(order, head, tail) && node !in Nodes(order)
    modifies node`next, node`previous, Nodes(order)`next
    ensures Chained(order + [node], head', tail')
  {
    PushNodes(order, node);
    node.previous, node.next := tail, null;
    head', tail' := head, node;
    if tail == null { head' := node; } else { tail.next := node; }
  }

  method LinkLastReplay(node: Pending, head: Pending?, tail: Pending?, ghost order: seq<Pending>)
    returns (head': Pending?, tail': Pending?)
    requires Distinct(order) && ReplayChained(order, head, tail) && node !in Nodes(order)
    modifies node`replayNext, node`replayPrevious, Nodes(order)`replayNext
    ensures ReplayChained(order + [node], head', tail')
  {
    PushNodes(order, node);
    node.replayPrevious, node.replayNext := tail, null;
    head', tail' := head, node;
    if tail == null { head' := node; } else { tail.replayNext := node; }
  }

  method PushSlot(node: Pending, slots: seq<Pending>, ghost order: seq<Pending>) returns (slots': seq<Pending>)
    requires Slotted(order, slots) && node !in Nodes(order)
    modifies node`pendingIndex
    ensures Slotted(order + [node], slots')
  {
    PushNodes(order, node);
    node.pendingIndex := |slots|;
    slots' := slots + [node];
  }

  method PushReplaySlot(node: Pending, slots: seq<Pending>, ghost order: seq<Pending>) returns (slots': seq<Pending>)
    requires ReplaySlotted(order, slots) && node !in Nodes(order)
    modifies node`replayIndex
    ensures ReplaySlotted(order + [node], slots')
  {
    PushNodes(order, node);
    node.replayIndex := |slots|;
    slots' := slots + [node];
  }

  // ---------------------------------------------------------------- rows

  ghost function RowsOf(order: seq<Pending>): (rows: seq<Entry>)
    reads Nodes(order)`sequence, Nodes(order)`sent, Nodes(order)`mayHaveExecuted
    ensures |rows| == |order|
    ensures forall i :: 0 <= i < |order| ==> rows[i] == order[i].Row()
  {
    if order == [] then []
    else
      assert forall i :: 0 <= i < |order| - 1 ==> order[i] in Nodes(order);
      RowsOf(order[..|order| - 1]) + [order[|order| - 1].Row()]
  }

  ghost function IdsOf(order: seq<Pending>): (ids: seq<RequestId>)
    ensures |ids| == |order|
    ensures forall i :: 0 <= i < |order| ==> ids[i] == order[i].id
  {
    seq(|order|, i requires 0 <= i < |order| => order[i].id)
  }

  lemma {:induction false} DropNone(rows: seq<Entry>, ids: set<RequestId>)
    requires forall i :: 0 <= i < |rows| ==> rows[i].id !in ids
    ensures Drop(rows, ids) == rows
  {
    if rows != [] { DropNone(rows[..|rows| - 1], ids); }
  }

  /** With distinct ids, dropping one id is taking out one row. */
  lemma {:induction false} DropOne(rows: seq<Entry>, k: nat)
    requires k < |rows|
    requires forall i, j :: 0 <= i < j < |rows| ==> rows[i].id != rows[j].id
    ensures Drop(rows, {rows[k].id}) == rows[..k] + rows[k + 1..]
  {
    var front := rows[..|rows| - 1];
    if k == |rows| - 1 {
      DropNone(front, {rows[k].id});
    } else {
      DropOne(front, k);
      assert rows[..k] + rows[k + 1..] == (front[..k] + front[k + 1..]) + [rows[|rows| - 1]];
    }
  }

  lemma {:induction false} DropIdsNone(list: seq<RequestId>, ids: set<RequestId>)
    requires forall i :: 0 <= i < |list| ==> list[i] !in ids
    ensures DropIds(list, ids) == list
  {
    if list != [] { DropIdsNone(list[..|list| - 1], ids); }
  }

  lemma {:induction false} DropIdsOne(list: seq<RequestId>, k: nat)
    requires k < |list|
    requires forall i, j :: 0 <= i < j < |list| ==> list[i] != list[j]
    ensures DropIds(list, {list[k]}) == list[..k] + list[k + 1..]
  {
    var front := list[..|list| - 1];
    if k == |list| - 1 {
      DropIdsNone(front, {list[k]});
    } else {
      DropIdsOne(front, k);
      assert list[..k] + list[k + 1..] == (front[..k] + front[k + 1..]) + [list[|list| - 1]];
    }
  }

  lemma {:induction false} SumPop(rows: seq<Entry>, k: nat, weight: Entry -> nat)
    requires k < |rows|
    ensures SumOf(rows, weight) == SumOf(rows[..k] + rows[k + 1..], weight) + weight(rows[k])
  {
    var rest := rows[..k] + rows[k + 1..];
    var front := rows[..|rows| - 1];
    if k == |rows| - 1 {
      assert rest == front;
    } else {
      SumPop(front, k, weight);
      assert rest[..|rest| - 1] == front[..k] + front[k + 1..];
    }
  }

  lemma MappedPop(order: seq<Pending>, k: nat, byRequest: map<RequestId, Pending>, byTid: map<nat, Pending>)
    requires Distinct(order) && k < |order| && Mapped(order, byRequest, byTid)
    ensures Mapped(Pop(order, k), byRequest - {order[k].id}, byTid - {order[k].tid})
  {
    PopNodes(order, k);
    var rest := Pop(order, k);
    forall i | 0 <= i < |rest|
      ensures rest[i].id in byRequest && byRequest[rest[i].id] == rest[i] && rest[i].id != order[k].id
      ensures rest[i].tid in byTid && byTid[rest[i].tid] == rest[i] && rest[i].tid != order[k].tid
    {
      assert rest[i] == order[if i < k then i else i + 1];
    }
  }

  lemma MappedPush(order: seq<Pending>, node: Pending, byRequest: map<RequestId, Pending>, byTid: map<nat, Pending>)
    requires Mapped(order, byRequest, byTid) && node.id !in byRequest && node.tid !in byTid
    ensures node !in Nodes(order)
    ensures Mapped(order + [node], byRequest[node.id := node], byTid[node.tid := node])
  {
    PushNodes(order, node);
    forall i | 0 <= i < |order|
      ensures order[i].id != node.id && order[i].tid != node.tid
    {
      assert order[i].id in byRequest && order[i].tid in byTid;
    }
  }

  /** Requests are told apart by the maps, so ids are distinct along `order`. */
  lemma MappedIsUnique(order: seq<Pending>, byRequest: map<RequestId, Pending>, byTid: map<nat, Pending>)
    requires Distinct(order) && Mapped(order, byRequest, byTid)
    ensures forall i, j :: 0 <= i < j < |order| ==> order[i].id != order[j].id
  {
    forall i, j | 0 <= i < j < |order|
      ensures order[i].id != order[j].id
    {
      assert byRequest[order[i].id] == order[i] && byRequest[order[j].id] == order[j];
    }
  }

  lemma RowsPop(order: seq<Pending>, k: nat)
    requires k < |order|
    ensures RowsOf(Pop(order, k)) == RowsOf(order)[..k] + RowsOf(order)[k + 1..]
  {
    hide RowsOf, Pop;
    var rest, rows := Pop(order, k), RowsOf(order);
    var kept := rows[..k] + rows[k + 1..];
    PopAt(order, k);
    forall i | 0 <= i < |rest| ensures RowsOf(rest)[i] == kept[i] {
      if i < k { assert rest[i] == order[i]; } else { assert rest[i] == order[i + 1]; }
    }
  }

  lemma PopAt(order: seq<Pending>, k: nat)
    requires k < |order|
    ensures var rest := Pop(order, k);
      && |rest| == |order| - 1
      && (forall i :: 0 <= i < k ==> rest[i] == order[i])
      && (forall i :: k <= i < |rest| ==> rest[i] == order[i + 1])
  {
  }

  lemma RowsDrop(order: seq<Pending>, k: nat)
    requires k < |order|
    requires forall i, j :: 0 <= i < j < |order| ==> order[i].id != order[j].id
    ensures RowsOf(Pop(order, k)) == Drop(RowsOf(order), {order[k].id})
  {
    RowsPop(order, k);
    DropOne(RowsOf(order), k);
  }

  lemma IdsDrop(order: seq<Pending>, k: nat)
    requires k < |order|
    requires forall i, j :: 0 <= i < j < |order| ==> order[i].id != order[j].id
    ensures IdsOf(Pop(order, k)) == DropIds(IdsOf(order), {order[k].id})
  {
    DropIdsOne(IdsOf(order), k);
  }

  /** Rows only depend on what their requests have gone through. */
  twostate lemma SameRows(order: seq<Pending>)
    requires forall i :: 0 <= i < |order| ==> order[i].Row() == old(order[i].Row())
    ensures RowsOf(order) == old(RowsOf(order))
  {
  }

  lemma OneRowChanged(rows: seq<Entry>, rows': seq<Entry>, k: nat)
    requires k < |rows| && |rows'| == |rows|
    requires forall i :: 0 <= i < |rows| && i != k ==> rows'[i] == rows[i]
    ensures rows' == rows[k := rows'[k]]
  {
  }

  /** Every node knows whether it is in the replay list. */
  ghost predicate Flagged(order: seq<Pending>, replayed: set<Pending>)
    reads Nodes(order)`inReplay
  {
    forall i :: 0 <= i < |order| ==> (order[i].inReplay <==> order[i] in replayed)
  }

  lemma FlaggedAt(order: seq<Pending>, replayed: set<Pending>, target: Pending)
    requires Flagged(order, replayed) && target in Nodes(order)
    ensures target.inReplay <==> target in replayed
  {
    var k := IndexOf(order, target);
  }

  /** Taking one node out keeps the other flags right. */
  lemma FlaggedPop(order: seq<Pending>, k: nat, replayed: set<Pending>)
    requires Distinct(order) && k < |order|
    requires forall i :: 0 <= i < |order| && i != k ==> (order[i].inReplay <==> order[i] in replayed)
    ensures Flagged(Pop(order, k), replayed - {order[k]})
  {
    var rest := Pop(order, k);
    forall i | 0 <= i < |rest|
      ensures rest[i].inReplay <==> rest[i] in replayed - {order[k]}
    {
      var j := if i < k then i else i + 1;
      assert rest[i] == order[j];
    }
  }

  lemma {:induction false} SumPush(rows: seq<Entry>, row: Entry, weight: Entry -> nat)
    ensures SumOf(rows + [row], weight) == SumOf(rows, weight) + weight(row)
  {
    assert (rows + [row])[..|rows|] == rows;
  }

  lemma SumsPush(order: seq<Pending>, node: Pending)
    ensures RowsOf(order + [node]) == RowsOf(order) + [node.Row()]
    ensures SumOf(RowsOf(order + [node]), ApplicationBytes) == SumOf(RowsOf(order), ApplicationBytes)
            + ApplicationBytes(node.Row())
    ensures SumOf(RowsOf(order + [node]), ControlRow) == SumOf(RowsOf(order), ControlRow) + ControlRow(node.Row())
    ensures SumOf(RowsOf(order + [node]), ControlBytes) == SumOf(RowsOf(order), ControlBytes) + ControlBytes(node.Row())
    ensures SumOf(RowsOf(order + [node]), InFlightRow) == SumOf(RowsOf(order), InFlightRow) + InFlightRow(node.Row())
  {
    hide SumOf;
    assert RowsOf(order + [node]) == RowsOf(order) + [node.Row()];
    SumPush(RowsOf(order), node.Row(), ApplicationBytes);
    SumPush(RowsOf(order), node.Row(), ControlRow);
    SumPush(RowsOf(order), node.Row(), ControlBytes);
    SumPush(RowsOf(order), node.Row(), InFlightRow);
  }

  lemma {:induction false} SumUpdate(rows: seq<Entry>, k: nat, row: Entry, weight: Entry -> nat)
    requires k < |rows|
    ensures SumOf(rows[k := row], weight) + weight(rows[k]) == SumOf(rows, weight) + weight(row)
  {
    var rows' := rows[k := row];
    if k < |rows| - 1 {
      SumUpdate(rows[..|rows| - 1], k, row, weight);
      assert rows'[..|rows| - 1] == rows[..|rows| - 1][k := row];
    } else {
      assert rows'[..|rows| - 1] == rows[..|rows| - 1];
    }
  }

  /** The four sums after one row went to or came back from the writer. */
  lemma SumsUpdate(rows: seq<Entry>, k: nat, row: Entry)
    requires k < |rows| && row.control == rows[k].control && row.bytes == rows[k].bytes
    ensures SumOf(rows[k := row], ApplicationBytes) == SumOf(rows, ApplicationBytes)
    ensures SumOf(rows[k := row], ControlRow) == SumOf(rows, ControlRow)
    ensures SumOf(rows[k := row], ControlBytes) == SumOf(rows, ControlBytes)
    ensures SumOf(rows[k := row], InFlightRow) + InFlightRow(rows[k]) == SumOf(rows, InFlightRow) + InFlightRow(row)
  {
    hide SumOf;
    SumUpdate(rows, k, row, ApplicationBytes);
    SumUpdate(rows, k, row, ControlRow);
    SumUpdate(rows, k, row, ControlBytes);
    SumUpdate(rows, k, row, InFlightRow);
  }

  lemma DistinctElsewhere(order: seq<Pending>, k: nat)
    requires Distinct(order) && k < |order|
    ensures forall i :: 0 <= i < |order| && i != k ==> order[i] != order[k]
  {
  }

  lemma DistinctIndex(order: seq<Pending>, i: nat, j: nat)
    requires Distinct(order) && i < |order| && j < |order| && order[i] == order[j]
    ensures i == j
  {
  }

  /** Taking a node out of the replay order drops its id from the replay list. */
  lemma ReplayDrop(order: seq<Pending>, replay: seq<Pending>, target: Pending, k: nat, rest: seq<Pending>)
    requires forall i, j :: 0 <= i < j < |order| ==> order[i].id != order[j].id
    requires target in Nodes(order) && Nodes(replay) <= Nodes(order) && Distinct(replay)
    requires target in Nodes(replay) ==> k < |replay| && replay[k] == target && rest == Pop(replay, k)
    requires target !in Nodes(replay) ==> rest == replay
    ensures IdsOf(rest) == DropIds(IdsOf(replay), {target.id})
  {
    forall i | 0 <= i < |replay|
      ensures replay[i] in Nodes(order) && (replay[i].id == target.id ==> replay[i] == target)
    {
      assert replay[i] in Nodes(replay);
      var a := IndexOf(order, replay[i]);
      var b := IndexOf(order, target);
    }
    if target in Nodes(replay) {
      forall i, j | 0 <= i < j < |replay|
        ensures replay[i].id != replay[j].id
      {
        var a := IndexOf(order, replay[i]);
        var b := IndexOf(order, replay[j]);
      }
      IdsDrop(replay, k);
    } else {
      DropIdsNone(IdsOf(replay), {target.id});
    }
  }

  /** A request is in the replay list exactly when its node is. */
  lemma ReplayHasId(order: seq<Pending>, replay: seq<Pending>, node: Pending,
                    byRequest: map<RequestId, Pending>, byTid: map<nat, Pending>)
    requires Mapped(order, byRequest, byTid) && node in Nodes(order) && Nodes(replay) <= Nodes(order)
    ensures node in Nodes(replay) <==> node.id in IdsOf(replay)
  {
    var a := IndexOf(order, node);
    if node.id in IdsOf(replay) {
      var i :| 0 <= i < |replay| && IdsOf(replay)[i] == node.id;
      assert replay[i] in Nodes(replay);
      var b := IndexOf(order, replay[i]);
    }
    if node in Nodes(replay) {
      var i := IndexOf(replay, node);
      assert IdsOf(replay)[i] == node.id;
    }
  }

  /** The sequence the replay list is trimmed by is the node's own. */
  lemma SequenceOfNode(order: seq<Pending>, node: Pending)
    requires forall i, j :: 0 <= i < j < |order| ==> order[i].id != order[j].id
    requires node in Nodes(order)
    ensures SequenceOf(RowsOf(order), node.id) == node.sequence
  {
    hide RowsOf, FindId;
    var k := IndexOf(order, node);
    assert RowsOf(order)[k].id == node.id;
    var index := FindId(RowsOf(order), node.id);
    assert node.id in Ids(RowsOf(order));
  }

  lemma UnsendStep(rows: seq<Entry>, ids: seq<RequestId>, k: nat)
    requires k < |rows|
    requires forall i, j :: 0 <= i < j < |rows| ==> rows[i].id != rows[j].id
    ensures Unsend(rows, ids + [rows[k].id]) == Unsend(rows, ids)[k := Unsend(rows, ids)[k].(sent := false)]
  {
  }

  /** Marking by the replay array is marking by the replay list. */
  lemma UnsendAlike(rows: seq<Entry>, order: seq<Pending>, slots: seq<Pending>)
    requires ReplaySlotted(order, slots)
    ensures Unsend(rows, IdsOf(slots)) == Unsend(rows, IdsOf(order))
  {
    forall id
      ensures id in IdsOf(slots) <==> id in IdsOf(order)
    {
      if id in IdsOf(slots) {
        var j :| 0 <= j < |slots| && IdsOf(slots)[j] == id;
        var i := IndexOf(order, slots[j]);
        assert IdsOf(order)[i] == id;
      }
      if id in IdsOf(order) {
        var i :| 0 <= i < |order| && IdsOf(order)[i] == id;
        assert IdsOf(slots)[order[i].replayIndex] == id;
      }
    }
  }

  /** `index` is where the first wanted row is, as far as rows before `i` tell; |rows| when not seen yet. */
  ghost predicate Found(rows: seq<Entry>, wanted: Entry -> bool, i: nat, index: nat)
    requires i <= |rows|
  {
    if index < |rows| then index == FirstIndex(rows, wanted, 0)
    else index == |rows| && FirstIndex(rows, wanted, i) == FirstIndex(rows, wanted, 0)
  }

  lemma UnsendNone(rows: seq<Entry>)
    ensures Unsend(rows, []) == rows
  {
  }

  lemma SumsPop(order: seq<Pending>, k: nat)
    requires k < |order|
    ensures SumOf(RowsOf(order), ApplicationBytes) == SumOf(RowsOf(Pop(order, k)), ApplicationBytes)
            + ApplicationBytes(order[k].Row())
    ensures SumOf(RowsOf(order), ControlRow) == SumOf(RowsOf(Pop(order, k)), ControlRow) + ControlRow(order[k].Row())
    ensures SumOf(RowsOf(order), ControlBytes) == SumOf(RowsOf(Pop(order, k)), ControlBytes)
            + ControlBytes(order[k].Row())
    ensures SumOf(RowsOf(order), InFlightRow) == SumOf(RowsOf(Pop(order, k)), InFlightRow) + InFlightRow(order[k].Row())
  {
    RowsPop(order, k);
    SumPop(RowsOf(order), k, ApplicationBytes);
    SumPop(RowsOf(order), k, ControlRow);
    SumPop(RowsOf(order), k, ControlBytes);
    SumPop(RowsOf(order), k, InFlightRow);
  }

  lemma NothingHeld(table: Table)
    requires table.pending == [] && table.head == null && table.tail == null && table.byRequest == map[]
             && table.byTid == map[]
    requires table.replay == [] && table.replayHead == null && table.replayTail == null
    requires table.retainedBytes == 0 && table.controlCount == 0 && table.controlBytes == 0 && table.inFlight == 0
    requires table.order == [] && table.replayOrder == []
    ensures table.Valid() && table.Rows() == [] && table.Replay() == []
  {
  }

  // ---------------------------------------------------------------- the table

  class Table {
    var pending: seq<Pending>
    var head: Pending?
    var tail: Pending?
    var byRequest: map<RequestId, Pending>
    var byTid: map<nat, Pending>
    var replay: seq<Pending>
    var replayHead: Pending?
    var replayTail: Pending?
    var retainedBytes: nat
    var controlCount: nat
    var controlBytes: nat
    var inFlight: nat
    ghost var order: seq<Pending>
    ghost var replayOrder: seq<Pending>

    ghost predicate ListOk()
      reads this, Nodes(order)`next, Nodes(order)`previous, Nodes(order)`pendingIndex
    {
      && Distinct(order)
      && Chained(order, head, tail)
      && Slotted(order, pending)
    }

    ghost predicate ReplayOk()
      reads this, Nodes(replayOrder)`replayNext, Nodes(replayOrder)`replayPrevious, Nodes(replayOrder)`replayIndex
    {
      && Distinct(replayOrder)
      && ReplayChained(replayOrder, replayHead, replayTail)
      && ReplaySlotted(replayOrder, replay)
    }

    ghost predicate Counted()
      reads this, Nodes(order)`sequence, Nodes(order)`sent, Nodes(order)`mayHaveExecuted
    {
      && retainedBytes == SumOf(RowsOf(order), ApplicationBytes)
      && controlCount == SumOf(RowsOf(order), ControlRow)
      && controlBytes == SumOf(RowsOf(order), ControlBytes)
      && inFlight == SumOf(RowsOf(order), InFlightRow)
    }

    /** The arrays and the lists. */
    ghost predicate Structured()
      reads this, Nodes(order), Nodes(replayOrder)
    {
      && ListOk()
      && ReplayOk()
      && Nodes(replayOrder) <= Nodes(order)
      && Flagged(order, Nodes(replayOrder))
    }

    /** The array, the list and the two maps describe the same requests, the replay array and list
        describe the same part of them, and the counters are the counts and sums over them. */
    ghost predicate Valid()
      reads this, Nodes(order), Nodes(replayOrder)
    {
      && Structured()
      && Mapped(order, byRequest, byTid)
      && Counted()
    }

    /** The rows in admission order. */
    ghost function Rows(): (rows: seq<Entry>)
      reads this, Nodes(order)
    {
      RowsOf(order)
    }

    ghost function Replay(): (ids: seq<RequestId>)
      reads this
    {
      IdsOf(replayOrder)
    }

    constructor ()
      ensures Valid() && Rows() == [] && Replay() == []
    {
      pending, head, tail, byRequest, byTid := [], null, null, map[], map[];
      replay, replayHead, replayTail := [], null, null;
      retainedBytes, controlCount, controlBytes, inFlight := 0, 0, 0, 0;
      order, replayOrder := [], [];
    }

    /** What the maps and the array know is what the rows say. */
    lemma Known()
      requires Valid()
      ensures byRequest.Keys == Ids(Rows()) && byTid.Keys == Tids(Rows()) && |pending| == |Rows()|
      ensures retainedBytes == SumOf(Rows(), ApplicationBytes) && controlCount == SumOf(Rows(), ControlRow)
      ensures controlBytes == SumOf(Rows(), ControlBytes) && inFlight == SumOf(Rows(), InFlightRow)
    {
      hide SumOf, Chained, ReplayChained, ReplaySlotted, Flagged;
      forall id | id in byRequest ensures id in Ids(Rows()) {
        var i := IndexOf(order, byRequest[id]);
        assert Rows()[i].id == id;
      }
      forall tid | tid in byTid ensures tid in Tids(Rows()) {
        var i := IndexOf(order, byTid[tid]);
        assert Rows()[i].tid == tid;
      }
    }

    /** The node a request is mapped to is that of its row. */
    lemma NodeOf(id: RequestId)
      requires Valid() && id in byRequest
      ensures byRequest[id] in Nodes(order) && byRequest[id].id == id
      ensures FindId(Rows(), id) < |Rows()| && Rows()[FindId(Rows(), id)] == byRequest[id].Row()
    {
      hide SumOf, Chained, ReplayChained, ReplaySlotted, Flagged, Slotted, FindId;
      var index := FindId(Rows(), id);
      var i := IndexOf(order, byRequest[id]);
      assert Rows()[i].id == id;
      assert id in Ids(Rows());
      assert order[index].id == id && byRequest[order[index].id] == order[index];
    }

    lemma NodeOfTid(tid: nat)
      requires Valid() && tid in byTid
      ensures byTid[tid] in Nodes(order) && byTid[tid].tid == tid
      ensures FindTid(Rows(), tid) < |Rows()| && Rows()[FindTid(Rows(), tid)] == byTid[tid].Row()
    {
      hide SumOf, Chained, ReplayChained, ReplaySlotted, Flagged, Slotted, FindTid;
      var index := FindTid(Rows(), tid);
      var i := IndexOf(order, byTid[tid]);
      assert Rows()[i].tid == tid;
      assert tid in Tids(Rows());
      assert order[index].tid == tid && byTid[order[index].tid] == order[index];
    }

    /** A node is at one place of the admission order. */
    lemma OnePlace(i: nat, k: nat)
      requires Valid() && i < |order| && k < |order| && order[i] == order[k]
      ensures i == k
    {
      hide SumOf, Chained, ReplayChained, ReplaySlotted, Flagged, Slotted, Mapped;
    }

    lemma InOrder(i: nat)
      requires i < |order|
      ensures order[i] in Nodes(order) && i < |Rows()| && Rows()[i] == order[i].Row()
    {
    }

    lemma ReplayWithin()
      requires Valid()
      ensures Nodes(replayOrder) <= Nodes(order)
      ensures forall i :: 0 <= i < |Replay()| ==> Replay()[i] in Ids(Rows())
    {
      hide SumOf, Chained, ReplayChained, ReplaySlotted, Flagged, Slotted, Mapped;
      forall i | 0 <= i < |Replay()| ensures Replay()[i] in Ids(Rows()) {
        var k := IndexOf(order, replayOrder[i]);
        assert Rows()[k].id == Replay()[i];
      }
    }

    /** Everything is given up at once. */
    method Empty()
      modifies this
      ensures pending == [] && head == null && tail == null && byRequest == map[] && byTid == map[]
      ensures replay == [] && replayHead == null && replayTail == null && order == [] && replayOrder == []
      ensures retainedBytes == 0 && controlCount == 0 && controlBytes == 0 && inFlight == 0
    {
      EmptyLists();
      EmptyMaps();
    }

    method EmptyLists()
      modifies this`pending, this`head, this`tail, this`order, this`replay, this`replayHead, this`replayTail,
               this`replayOrder
      ensures pending == [] && head == null && tail == null && order == []
      ensures replay == [] && replayHead == null && replayTail == null && replayOrder == []
    {
      pending, head, tail, order := [], null, null, [];
      replay, replayHead, replayTail, replayOrder := [], null, null, [];
    }

    method EmptyMaps()
      modifies this`byRequest, this`byTid, this`retainedBytes, this`controlCount, this`controlBytes, this`inFlight
      ensures byRequest == map[] && byTid == map[]
      ensures retainedBytes == 0 && controlCount == 0 && controlBytes == 0 && inFlight == 0
    {
      byRequest, byTid := map[], map[];
      retainedBytes, controlCount, controlBytes, inFlight := 0, 0, 0, 0;
    }

    method CutReplay(target: Pending) returns (ghost k: nat)
      requires ReplayOk() && target in Nodes(replayOrder)
      modifies this`replay, this`replayHead, this`replayTail, this`replayOrder
      modifies Nodes(replayOrder)`replayNext, Nodes(replayOrder)`replayPrevious, Nodes(replayOrder)`replayIndex
      ensures ReplayOk()
      ensures k < |old(replayOrder)| && old(replayOrder)[k] == target && replayOrder == Pop(old(replayOrder), k)
    {
      hide Nodes, Pop;
      k := IndexOf(replayOrder, target);
      replay := SwapRemoveReplay(target, replay, replayOrder, k);
      replayHead, replayTail := UnlinkReplay(target, replayHead, replayTail, replayOrder, k);
      PopNodes(replayOrder, k);
      replayOrder := Pop(replayOrder, k);
    }

    /** The admission list and its array only depend on their own links. */
    twostate lemma SameList()
      requires old(ListOk()) && order == old(order) && head == old(head) && tail == old(tail) && pending == old(pending)
      requires forall i :: 0 <= i < |order| ==>
        && order[i].next == old(order[i].next)
        && order[i].previous == old(order[i].previous)
        && order[i].pendingIndex == old(order[i].pendingIndex)
      ensures ListOk()
    {
      forall j | 0 <= j < |pending|
        ensures pending[j] in Nodes(order) && pending[j].pendingIndex == j
      {
        var i := IndexOf(order, pending[j]);
      }
    }

    method RemoveReplay(target: Pending) returns (ghost k: nat)
      requires ReplayOk() && (target.inReplay <==> target in Nodes(replayOrder))
      modifies this`replay, this`replayHead, this`replayTail, this`replayOrder
      modifies Nodes(replayOrder)`replayNext, Nodes(replayOrder)`replayPrevious, Nodes(replayOrder)`replayIndex
      modifies target`inReplay
      ensures ReplayOk() && !target.inReplay
      ensures Nodes(replayOrder) == old(Nodes(replayOrder)) - {target}
      ensures target in old(Nodes(replayOrder)) ==>
        k < |old(replayOrder)| && old(replayOrder)[k] == target && replayOrder == Pop(old(replayOrder), k)
      ensures target !in old(Nodes(replayOrder)) ==> replayOrder == old(replayOrder)
    {
      hide Nodes, Pop;
      k := 0;
      if target.inReplay {
        k := CutReplay(target);
        target.inReplay := false;
        PopNodes(old(replayOrder), k);
      }
    }

    method CutPending(target: Pending) returns (ghost k: nat)
      requires ListOk() && target in Nodes(order)
      modifies this`pending, this`head, this`tail, this`order
      modifies Nodes(order)`next, Nodes(order)`previous, Nodes(order)`pendingIndex
      ensures ListOk()
      ensures k < |old(order)| && old(order)[k] == target && order == Pop(old(order), k)
      ensures 0 <= old(target.pendingIndex) < |old(pending)| && pending == Evict(old(pending), old(target.pendingIndex))
    {
      hide Nodes, Pop;
      k := IndexOf(order, target);
      pending, head, tail := CutNode(target, pending, head, tail, order, k);
      PopNodes(order, k);
      order := Pop(order, k);
    }

    /** Out of the arrays and the lists. */
    method Detach(target: Pending) returns (ghost k: nat, ghost r: nat)
      requires ListOk() && ReplayOk() && target in Nodes(order)
      requires Flagged(order, Nodes(replayOrder)) && (target.inReplay <==> target in Nodes(replayOrder))
      requires Nodes(replayOrder) <= Nodes(order)
      modifies this`pending, this`head, this`tail, this`order
      modifies this`replay, this`replayHead, this`replayTail, this`replayOrder
      modifies Nodes(order)`next, Nodes(order)`previous, Nodes(order)`pendingIndex
      modifies Nodes(order)`replayNext, Nodes(order)`replayPrevious, Nodes(order)`replayIndex, target`inReplay
      ensures ListOk() && ReplayOk() && !target.inReplay
      ensures k < |old(order)| && old(order)[k] == target && order == Pop(old(order), k)
      ensures 0 <= old(target.pendingIndex) < |old(pending)| && pending == Evict(old(pending), old(target.pendingIndex))
      ensures Nodes(replayOrder) == old(Nodes(replayOrder)) - {target}
      ensures target in old(Nodes(replayOrder)) ==>
        r < |old(replayOrder)| && old(replayOrder)[r] == target && replayOrder == Pop(old(replayOrder), r)
      ensures target !in old(Nodes(replayOrder)) ==> replayOrder == old(replayOrder)
      ensures Flagged(order, Nodes(replayOrder)) && RowsOf(old(order)) == old(RowsOf(order))
    {
      hide Nodes, Pop, Distinct, RowsOf, Chained, Slotted;
      ghost var was, replayed := order, Nodes(replayOrder);
      k := CutPending(target);
      DistinctElsewhere(was, k);
      label cut:
      r := RemoveReplay(target);
      SameList@cut();
      SameRows(was);
      FlaggedPop(was, k, replayed);
    }

    /** Out of the maps. */
    method Unmap(target: Pending, ghost was: seq<Pending>, ghost k: nat)
      requires Distinct(was) && k < |was| && was[k] == target && order == Pop(was, k)
      requires Mapped(was, byRequest, byTid) && Structured() && Counted()
      modifies this`byRequest, this`byTid
      ensures Valid() && Rows() == old(Rows())
    {
      hide SumOf, RowsOf, Pop, Nodes, Mapped, Distinct, Chained, Slotted, ReplayChained, ReplaySlotted, Flagged;
      MappedPop(was, k, byRequest, byTid);
      byRequest := byRequest - {target.id};
      byTid := byTid - {target.tid};
    }

    /** Out of the counters. */
    method Uncount(target: Pending, ghost was: seq<Pending>, ghost k: nat)
      requires k < |was| && was[k] == target && order == Pop(was, k)
      requires retainedBytes == SumOf(RowsOf(was), ApplicationBytes)
      requires controlCount == SumOf(RowsOf(was), ControlRow)
      requires controlBytes == SumOf(RowsOf(was), ControlBytes)
      requires inFlight == SumOf(RowsOf(was), InFlightRow)
      requires Structured()
      modifies this`retainedBytes, this`controlCount, this`controlBytes, this`inFlight
      ensures Counted() && Structured() && Rows() == old(Rows())
    {
      hide SumOf, RowsOf, Pop, Nodes, Distinct, Chained, Slotted, ReplayChained, ReplaySlotted, Flagged;
      SumsPop(was, k);
      if target.sent && !target.control { inFlight := inFlight - 1; }
      if target.control {
        controlCount := controlCount - 1;
        controlBytes := controlBytes - target.bytes;
      } else {
        retainedBytes := retainedBytes - target.bytes;
      }
    }

    /** The row leaves the array, both lists, both maps and the counters. */
    method Remove(target: Pending)
      requires Valid() && target in Nodes(order)
      modifies this
      modifies Nodes(order)`next, Nodes(order)`previous, Nodes(order)`pendingIndex
      modifies Nodes(order)`replayNext, Nodes(order)`replayPrevious, Nodes(order)`replayIndex, Nodes(order)`inReplay
      ensures Valid()
      ensures Nodes(order) == old(Nodes(order)) - {target}
      ensures Rows() == Drop(old(Rows()), {target.id})
      ensures Replay() == DropIds(old(Replay()), {target.id})
      ensures 0 <= old(target.pendingIndex) < |old(pending)| && pending == Evict(old(pending), old(target.pendingIndex))
    {
      hide SumOf, RowsOf, Pop, Nodes, Mapped, Drop, DropIds, Distinct, Chained, Slotted, ReplayChained, ReplaySlotted,
          Flagged;
      ghost var was, wasReplay := order, replayOrder;
      MappedIsUnique(order, byRequest, byTid);
      FlaggedAt(order, Nodes(replayOrder), target);
      ghost var k, r := Detach(target);
      PopNodes(was, k);
      RowsDrop(was, k);
      ReplayDrop(was, wasReplay, target, r, replayOrder);
      Uncount(target, was, k);
      Unmap(target, was, k);
    }

    method LinkReplay(node: Pending)
      requires ReplayOk() && node !in Nodes(replayOrder)
      modifies this`replay, this`replayHead, this`replayTail, this`replayOrder
      modifies node`replayIndex, node`replayNext, node`replayPrevious, Nodes(replayOrder)`replayNext
      ensures ReplayOk() && replayOrder == old(replayOrder) + [node]
    {
      hide Nodes, Distinct;
      PushNodes(replayOrder, node);
      replay := PushReplaySlot(node, replay, replayOrder);
      replayHead, replayTail := LinkLastReplay(node, replayHead, replayTail, replayOrder);
      replayOrder := replayOrder + [node];
    }

    method Link(node: Pending)
      requires ListOk() && node !in Nodes(order)
      modifies this`pending, this`head, this`tail, this`order
      modifies node`pendingIndex, node`next, node`previous, Nodes(order)`next
      ensures ListOk() && order == old(order) + [node]
    {
      hide Nodes, Distinct;
      PushNodes(order, node);
      pending := PushSlot(node, pending, order);
      head, tail := LinkLast(node, head, tail, order);
      order := order + [node];
    }

    /** Into the maps and the counters. */
    method Remember(node: Pending, ghost was: seq<Pending>)
      requires order == was + [node] && Mapped(was, byRequest, byTid) && node.id !in byRequest && node.tid !in byTid
      requires retainedBytes == SumOf(RowsOf(was), ApplicationBytes)
      requires controlCount == SumOf(RowsOf(was), ControlRow)
      requires controlBytes == SumOf(RowsOf(was), ControlBytes)
      requires inFlight == SumOf(RowsOf(was), InFlightRow)
      requires !node.sent
      requires ListOk() && ReplayOk() && Nodes(replayOrder) <= Nodes(order) && Flagged(order, Nodes(replayOrder))
      modifies this`byRequest, this`byTid, this`retainedBytes, this`controlCount, this`controlBytes
      ensures Valid()
    {
      hide SumOf, RowsOf, Nodes, Mapped, Distinct, Chained, Slotted, ReplayChained, ReplaySlotted, Flagged;
      MappedPush(was, node, byRequest, byTid);
      SumsPush(was, node);
      byRequest := byRequest[node.id := node];
      byTid := byTid[node.tid := node];
      if node.control {
        controlCount := controlCount + 1;
        controlBytes := controlBytes + node.bytes;
      } else {
        retainedBytes := retainedBytes + node.bytes;
      }
    }

    /** A new row is admitted at the end. */
    method Add(node: Pending)
      requires Valid() && node.id !in byRequest && node.tid !in byTid && !node.sent && !node.inReplay
      modifies this, node`pendingIndex, node`next, node`previous, Nodes(order)`next
      ensures Valid() && Nodes(order) == old(Nodes(order)) + {node}
      ensures Rows() == old(Rows()) + [old(node.Row())]
      ensures Replay() == old(Replay())
    {
      hide SumOf, RowsOf, Nodes, Mapped, Distinct, Chained, Slotted, ReplayChained, ReplaySlotted, Flagged;
      ghost var was := order;
      MappedPush(was, node, byRequest, byTid);
      LinkNew(node);
      PushNodes(was, node);
      SameRows(was);
      SumsPush(was, node);
      Remember(node, was);
    }

    /** Into the array and the list; the replay list is not touched. */
    method LinkNew(node: Pending)
      requires ListOk() && ReplayOk() && node !in Nodes(order) && Nodes(replayOrder) <= Nodes(order)
      requires Flagged(order, Nodes(replayOrder)) && !node.inReplay
      modifies this`pending, this`head, this`tail, this`order
      modifies node`pendingIndex, node`next, node`previous, Nodes(order)`next
      ensures ListOk() && order == old(order) + [node] && ReplayOk() && Flagged(order, Nodes(replayOrder))
    {
      Link(node);
    }

    method AddReplay(node: Pending)
      requires Valid() && node in Nodes(order)
      modifies this`replay, this`replayHead, this`replayTail, this`replayOrder
      modifies node`replayIndex, node`replayNext, node`replayPrevious, node`inReplay, Nodes(replayOrder)`replayNext
      ensures Valid() && order == old(order) && node.inReplay && Rows() == old(Rows())
      ensures Replay() == if old(node.inReplay) then old(Replay()) else old(Replay()) + [node.id]
      ensures old(node.inReplay) <==> node.id in old(Replay())
    {
      hide SumOf, RowsOf, Mapped;
      ghost var was := replayOrder;
      FlaggedAt(order, Nodes(replayOrder), node);
      ReplayHasId(order, replayOrder, node, byRequest, byTid);
      if !node.inReplay {
        AppendReplay(node);
        assert IdsOf(was + [node]) == IdsOf(was) + [node.id];
      }
    }

    method AppendReplay(node: Pending)
      requires ListOk() && ReplayOk() && node in Nodes(order) && node !in Nodes(replayOrder)
      requires Nodes(replayOrder) <= Nodes(order) && Flagged(order, Nodes(replayOrder)) && Counted()
      modifies this`replay, this`replayHead, this`replayTail, this`replayOrder
      modifies node`replayIndex, node`replayNext, node`replayPrevious, node`inReplay, Nodes(replayOrder)`replayNext
      ensures ListOk() && ReplayOk() && replayOrder == old(replayOrder) + [node]
      ensures Nodes(replayOrder) <= Nodes(order) && Flagged(order, Nodes(replayOrder)) && Counted() && node.inReplay
      ensures Rows() == old(Rows())
    {
      hide SumOf, RowsOf, Chained, Slotted, ReplayChained, ReplaySlotted;
      PushNodes(replayOrder, node);
      node.inReplay := true;
      LinkReplay(node);
      SameList();
      SameRows(order);
    }

    /** The row goes to the writer under `sequence` and joins the replay list. */
    method MarkWritten(target: Pending, sequence: nat) returns (ghost k: nat)
      requires Valid() && target in Nodes(order) && !target.sent
      modifies this
      modifies target`sequence, target`sent, target`mayHaveExecuted
      modifies target`replayIndex, target`replayNext, target`replayPrevious, target`inReplay,
               Nodes(replayOrder)`replayNext
      ensures Valid() && order == old(order) && k < |order| && order[k] == target
      ensures Rows() == old(Rows())[k := old(Rows())[k].(sequence := sequence, sent := true, mayHaveExecuted := true)]
      ensures Replay() == if target.id in old(Replay()) then old(Replay()) else old(Replay()) + [target.id]
    {
      hide SumOf, RowsOf, Mapped, Distinct, Nodes, Chained, Slotted, ReplayChained, ReplaySlotted, Flagged, IdsOf;
      k := Number(target, sequence);
      AddReplay(target);
    }

    method Number(target: Pending, sequence: nat) returns (ghost k: nat)
      requires Valid() && target in Nodes(order) && !target.sent
      modifies this`inFlight
      modifies target`sequence, target`sent, target`mayHaveExecuted
      ensures Valid() && k < |order| && order[k] == target
      ensures Rows() == old(Rows())[k := old(Rows())[k].(sequence := sequence, sent := true, mayHaveExecuted := true)]
    {
      hide SumOf, RowsOf, Mapped, Nodes, Chained, Slotted, ReplayChained, ReplaySlotted, Flagged;
      k := IndexOf(order, target);
      ghost var rows := Rows();
      SumsUpdate(RowsOf(order), k, target.Row().(sequence := sequence, sent := true, mayHaveExecuted := true));
      if !target.control { inFlight := inFlight + 1; }
      target.sequence := sequence;
      target.sent := true;
      target.mayHaveExecuted := true;
      OneRowChanged(rows, Rows(), k);
    }

    /** The first node of the replay list leaves it. */
    method UnreplayHead()
      requires Structured() && replayHead != null
      modifies this`replay, this`replayHead, this`replayTail, this`replayOrder
      modifies Nodes(replayOrder)`replayNext, Nodes(replayOrder)`replayPrevious, Nodes(replayOrder)`replayIndex
      modifies Nodes(replayOrder)`inReplay
      ensures Structured() && Nodes(replayOrder) <= old(Nodes(replayOrder))
      ensures old(replayOrder) != [] && replayOrder == old(replayOrder)[1..]
    {
      hide Chained, Slotted, ReplaySlotted;
      ghost var was := replayOrder;
      var target := replayHead;
      assert target == replayOrder[0] && target in Nodes(replayOrder) && target in Nodes(order);
      FlaggedAt(order, Nodes(replayOrder), target);
      ghost var k := RemoveReplay(target);
      SameList();
      DistinctIndex(was, 0, k);
    }

    /** One acknowledged node leaves the front of the replay list. */
    method TrimOne()
      requires Valid() && replayHead != null
      modifies this`replay, this`replayHead, this`replayTail, this`replayOrder
      modifies Nodes(replayOrder)`replayNext, Nodes(replayOrder)`replayPrevious, Nodes(replayOrder)`replayIndex
      modifies Nodes(replayOrder)`inReplay
      ensures Valid() && order == old(order) && Rows() == old(Rows())
      ensures old(replayOrder) != [] && replayOrder == old(replayOrder)[1..]
      ensures Nodes(replayOrder) <= old(Nodes(replayOrder))
    {
      hide SumOf, RowsOf, Mapped, Structured, Nodes;
      UnreplayHead();
      SameRows(order);
    }

    /** Drop the acknowledged prefix of the replay list. */
    method TrimReplay(sequence: nat)
      requires Valid()
      modifies this`replay, this`replayHead, this`replayTail, this`replayOrder
      modifies Nodes(replayOrder)`replayNext, Nodes(replayOrder)`replayPrevious, Nodes(replayOrder)`replayIndex
      modifies Nodes(replayOrder)`inReplay
      ensures Valid() && order == old(order) && Rows() == old(Rows())
      ensures Replay() == Trimmed(old(Replay()), old(Rows()), sequence)
    {
      hide SumOf, RowsOf, Mapped, Chained, Slotted, ReplaySlotted, Flagged, SequenceOf, Distinct, Counted;
      ghost var rows := Rows();
      ghost var nodes := Nodes(replayOrder);
      while replayHead != null && replayHead.sequence <= sequence
        invariant Valid() && order == old(order) && Rows() == rows && Nodes(replayOrder) <= nodes
        invariant Trimmed(IdsOf(replayOrder), rows, sequence) == Trimmed(old(Replay()), rows, sequence)
        decreases |replayOrder|
      {
        HeadSequence();
        assert IdsOf(replayOrder)[1..] == IdsOf(replayOrder[1..]);
        TrimOne();
      }
      HeadSequence();
    }

    lemma HeadSequence()
      requires Valid()
      ensures replayHead == At(replayOrder, 0)
      ensures replayHead != null ==> SequenceOf(Rows(), replayOrder[0].id) == replayHead.sequence
    {
      hide SumOf, RowsOf, Mapped, SequenceOf;
      if replayHead != null {
        MappedIsUnique(order, byRequest, byTid);
        assert replayOrder[0] in Nodes(replayOrder);
        SequenceOfNode(order, replayOrder[0]);
      }
    }

    /** A row is marked as not written on the next transport. */
    method Unmark(target: Pending) returns (ghost k: nat)
      requires Valid() && target in Nodes(order)
      modifies this`inFlight, target`sent
      ensures Valid() && k < |order| && order[k] == target
      ensures Rows() == old(Rows())[k := old(Rows())[k].(sent := false)]
    {
      hide SumOf, RowsOf, Mapped, Nodes, Chained, Slotted, ReplayChained, ReplaySlotted, Flagged;
      k := IndexOf(order, target);
      ghost var rows := Rows();
      SumsUpdate(RowsOf(order), k, target.Row().(sent := false));
      if target.sent {
        if !target.control { inFlight := inFlight - 1; }
        target.sent := false;
      }
      OneRowChanged(rows, Rows(), k);
    }

    /** Every row of the replay list is to be written again. */
    method PrepareReplay()
      requires Valid()
      modifies this`inFlight, Nodes(order)`sent
      ensures Valid() && Replay() == old(Replay())
      ensures Rows() == Unsend(old(Rows()), Replay())
    {
      hide SumOf, RowsOf, Mapped, Chained, Slotted, Flagged, Counted, ReplayChained, Distinct, Unsend;
      ghost var rows := Rows();
      assert IdsOf(replay[..0]) == [];
      UnsendNone(rows);
      for index := 0 to |replay|
        invariant Valid()
        invariant Rows() == Unsend(rows, IdsOf(replay[..index]))
      {
        PrepareOne(index, rows);
      }
      assert replay[..|replay|] == replay;
      UnsendAlike(rows, replayOrder, replay);
    }

    method PrepareOne(index: nat, ghost rows: seq<Entry>)
      requires Valid() && index < |replay| && |rows| == |order|
      requires forall i :: 0 <= i < |order| ==> rows[i].id == order[i].id
      requires Rows() == Unsend(rows, IdsOf(replay[..index]))
      modifies this`inFlight, Nodes(order)`sent
      ensures Valid()
      ensures Rows() == Unsend(rows, IdsOf(replay[..index + 1]))
    {
      hide SumOf, RowsOf, Mapped, Chained, Slotted, Flagged, Counted, ReplayChained, Distinct, Unsend;
      assert replay[index] in Nodes(replayOrder);
      MappedIsUnique(order, byRequest, byTid);
      ghost var k := Unmark(replay[index]);
      assert IdsOf(replay[..index + 1]) == IdsOf(replay[..index]) + [rows[k].id];
      UnsendStep(rows, IdsOf(replay[..index]), k);
    }

    /** Every node is taken out of its lists. */
    method ResetNodes(nodes: seq<Pending>)
      modifies Nodes(nodes)`next, Nodes(nodes)`previous, Nodes(nodes)`pendingIndex
      modifies Nodes(nodes)`replayNext, Nodes(nodes)`replayPrevious, Nodes(nodes)`replayIndex, Nodes(nodes)`inReplay
      ensures forall j :: 0 <= j < |nodes| ==> nodes[j].next == null && nodes[j].previous == null && !nodes[j].inReplay
    {
      for index := 0 to |nodes|
        invariant forall j :: 0 <= j < index ==>
                    nodes[j].next == null && nodes[j].previous == null && !nodes[j].inReplay
      {
        var node := nodes[index];
        assert node in Nodes(nodes);
        node.previous, node.next := null, null;
        node.replayPrevious, node.replayNext := null, null;
        node.pendingIndex, node.replayIndex := -1, -1;
        node.inReplay := false;
      }
    }

    /** The first unsent row, when no control row is in the table. */
    method FirstUnsent() returns (node: Pending?)
      requires Valid()
      ensures node == At(order, FirstIndex(Rows(), Unsent, 0))
    {
      hide SumOf, Mapped, Slotted, ReplayChained, ReplaySlotted, Flagged, Distinct;
      node := head;
      ghost var i := 0;
      while node != null
        invariant 0 <= i <= |order| && node == At(order, i)
        invariant FirstIndex(RowsOf(order), Unsent, i) == FirstIndex(RowsOf(order), Unsent, 0)
        decreases |order| - i
      {
        if !node.sent { return; }
        node := node.next;
        i := i + 1;
      }
    }

    /** The write to do next, when control rows are in the table: the least replay, else the
        first control row, else the first application row. */
    method PickUnsent() returns (node: Pending?)
      requires Valid()
      ensures var rows := Rows();
        node == At(order, var replay := LeastReplay(rows, 0, |rows|);
                          var control := FirstIndex(rows, UnsentControl, 0);
                          if replay < |rows| then replay
                          else if control < |rows| then control
                          else FirstIndex(rows, UnsentApplication, 0))
    {
      hide SumOf, Mapped, Slotted, ReplayChained, ReplaySlotted, Flagged, Distinct;
      var replay: Pending?, control: Pending?, application: Pending? := null, null, null;
      node := head;
      ghost var rows := Rows();
      ghost var i: nat, r: nat, c: nat, a: nat := 0, |rows|, |rows|, |rows|;
      while node != null
        invariant 0 <= i <= |order| && node == At(order, i)
        invariant r <= |rows| && replay == At(order, r) && (r < |rows| ==> r < i && UnsentReplay(rows[r]))
        invariant LeastReplay(rows, i, r) == LeastReplay(rows, 0, |rows|)
        invariant Found(rows, UnsentControl, i, c) && control == At(order, c)
        invariant Found(rows, UnsentApplication, i, a) && application == At(order, a)
        decreases |order| - i
      {
        assert rows[i] == node.Row();
        if !node.sent {
          if node.sequence != 0 {
            if replay == null || node.sequence < replay.sequence { replay, r := node, i; }
          } else if node.control {
            if control == null { control, c := node, i; }
          } else if application == null {
            application, a := node, i;
          }
        }
        node := node.next;
        i := i + 1;
      }
      node := if replay != null then replay else if control != null then control else application;
    }

    method NextWrite() returns (node: Pending?)
      requires Valid()
      ensures node == At(order, SessionSteps.NextWrite(Rows()))
    {
      hide SumOf, Mapped, Slotted, ReplayChained, ReplaySlotted, Flagged, Distinct, Chained, RowsOf, FirstIndex,
          LeastReplay;
      if controlCount == 0 { node := FirstUnsent(); } else { node := PickUnsent(); }
    }

    /** The replay list is given up; the rows stay. */
    method ClearReplay()
      requires Valid()
      modifies this`replay, this`replayHead, this`replayTail, this`replayOrder
      modifies Nodes(replayOrder)`replayNext, Nodes(replayOrder)`replayPrevious, Nodes(replayOrder)`replayIndex
      modifies Nodes(replayOrder)`inReplay
      ensures Valid() && order == old(order) && Rows() == old(Rows()) && Replay() == []
    {
      hide SumOf, RowsOf, Mapped, Chained, Slotted, ReplaySlotted, Flagged, Distinct, Counted;
      ghost var rows := Rows();
      ghost var nodes := Nodes(replayOrder);
      while replayHead != null
        invariant Valid() && order == old(order) && Rows() == rows && Nodes(replayOrder) <= nodes
        decreases |replayOrder|
      {
        TrimOne();
      }
    }
  }
}
