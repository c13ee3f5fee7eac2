/** The owner's loops that answer many requests at once, on the request table as it is kept: they walk the
    array while rows are swap-removed from it, and are proved to make the deliveries of the bulk
    settlements in SessionSteps. */
module SettleLoops {
  import opened SessionState
  import opened SessionSteps
  import opened RequestTable
  import SessionInvariant
  import SessionRuns

  // ---------------------------------------------------------------- one at a time is all at once

  lemma {:induction false} DropDrop(rows: seq<Entry>, some: set<RequestId>, more: set<RequestId>)
    ensures Drop(Drop(rows, some), more) == Drop(rows, some + more)
  {
    if rows != [] {
      var front, last := rows[..|rows| - 1], rows[|rows| - 1];
      DropDrop(front, some, more);
      var kept := Drop(front, some);
      if last.id in some {
        assert kept + [] == kept;
      } else {
        assert (kept + [last])[..|kept|] == kept;
      }
    }
  }

  lemma {:induction false} DropIdsDropIds(list: seq<RequestId>, some: set<RequestId>, more: set<RequestId>)
    ensures DropIds(DropIds(list, some), more) == DropIds(list, some + more)
  {
    if list != [] {
      var front, last := list[..|list| - 1], list[|list| - 1];
      DropIdsDropIds(front, some, more);
      var kept := DropIds(front, some);
      if last in some {
        assert kept + [] == kept;
      } else {
        assert (kept + [last])[..|kept|] == kept;
      }
    }
  }

  /** What has been delivered so far for the rows that satisfy `chosen`. */
  ghost predicate Partly(rows: seq<Entry>, chosen: Entry -> bool, unknown: Entry -> bool, site: Site,
                         done: map<RequestId, Delivery>)
  {
    forall id :: id in done ==> exists i ::
      0 <= i < |rows| && rows[i].id == id && chosen(rows[i]) && done[id] == Delivery(Failed(unknown(rows[i])), site)
  }

  lemma PartlyNone(rows: seq<Entry>, chosen: Entry -> bool, unknown: Entry -> bool, site: Site)
    ensures Partly(rows, chosen, unknown, site, map[])
  {
  }

  lemma PartlyMore(rows: seq<Entry>, chosen: Entry -> bool, unknown: Entry -> bool, site: Site,
                   done: map<RequestId, Delivery>, i: nat)
    requires Partly(rows, chosen, unknown, site, done) && i < |rows| && chosen(rows[i])
    ensures Partly(rows, chosen, unknown, site, done[rows[i].id := Delivery(Failed(unknown(rows[i])), site)])
  {
  }

  /** When every chosen row was served, the deliveries are the bulk settlement's. */
  lemma ServedAll(rows: seq<Entry>, chosen: Entry -> bool, unknown: Entry -> bool, site: Site, done: map<RequestId,
                  Delivery>)
    requires forall i, j :: 0 <= i < j < |rows| ==> rows[i].id != rows[j].id
    requires Partly(rows, chosen, unknown, site, done)
    requires forall i :: 0 <= i < |rows| && chosen(rows[i]) ==> rows[i].id in done
    ensures done == Chosen(rows, chosen, unknown, site)
  {
    hide Chosen;
    var all := Chosen(rows, chosen, unknown, site);
    forall id | id in done
      ensures id in all && all[id] == done[id]
    {
      var i :| 0 <= i < |rows| && rows[i].id == id && chosen(rows[i])
          && done[id] == Delivery(Failed(unknown(rows[i])), site);
      SessionRuns.ChosenCovers(rows, chosen, unknown, site, i);
      SessionRuns.ChosenKeys(rows, chosen, unknown, site, id);
      var j :| 0 <= j < |rows| && rows[j].id == id && chosen(rows[j])
          && all[id] == Delivery(Failed(unknown(rows[j])), site);
      assert i == j;
    }
    forall id | id in all
      ensures id in done
    {
      SessionRuns.ChosenKeys(rows, chosen, unknown, site, id);
    }
  }

  // ---------------------------------------------------------------- the loops

  /** What a loop has done so far: answered some chosen rows and taken exactly those out. */
  ghost predicate Underway(table: Table, rows: seq<Entry>, replay: seq<RequestId>, nodes: set<Pending>,
                           chosen: Entry -> bool, unknown: Entry -> bool, site: Site, done: map<RequestId, Delivery>)
    reads table, Nodes(table.order), Nodes(table.replayOrder)
  {
    && table.Valid()
    && Nodes(table.order) <= nodes
    && table.Rows() == Drop(rows, done.Keys)
    && table.Replay() == DropIds(replay, done.Keys)
    && Partly(rows, chosen, unknown, site, done)
  }

  /** One more row is answered. */
  method AnswerOne(table: Table, target: Pending, ghost rows: seq<Entry>, ghost replay: seq<RequestId>,
                   ghost nodes: set<Pending>, chosen: Entry -> bool, unknown: Entry -> bool, site: Site,
                   done: map<RequestId, Delivery>)
    returns (done': map<RequestId, Delivery>)
    requires Underway(table, rows, replay, nodes, chosen, unknown, site, done)
    requires target in Nodes(table.order) && chosen(target.Row())
    modifies table
    modifies Nodes(table.order)`next, Nodes(table.order)`previous, Nodes(table.order)`pendingIndex
    modifies Nodes(table.order)`replayNext, Nodes(table.order)`replayPrevious
    modifies Nodes(table.order)`replayIndex, Nodes(table.order)`inReplay
    ensures done' == done[target.id := Delivery(Failed(unknown(target.Row())), site)]
    ensures Underway(table, rows, replay, nodes, chosen, unknown, site, done')
    ensures Nodes(table.order) == old(Nodes(table.order)) - {target}
    ensures 0 <= old(target.pendingIndex) < |old(table.pending)|
    ensures table.pending == Evict(old(table.pending), old(target.pendingIndex))
  {
    hide Nodes, RowsOf, Drop, DropIds, Table.Valid, Partly;
    done' := done[target.id := Delivery(Failed(unknown(target.Row())), site)];
    var a := SourceOf(table, target, rows, done.Keys);
    PartlyMore(rows, chosen, unknown, site, done, a);
    DropDrop(rows, done.Keys, {target.id});
    DropIdsDropIds(replay, done.Keys, {target.id});
    assert done'.Keys == done.Keys + {target.id};
    table.Remove(target);
  }

  /** A node still in the table is one of the rows the loop started with. */
  lemma SourceOf(table: Table, target: Pending, rows: seq<Entry>, ids: set<RequestId>) returns (a: nat)
    requires target in Nodes(table.order) && table.Rows() == Drop(rows, ids)
    ensures a < |rows| && rows[a] == target.Row() && rows[a].id !in ids
  {
    hide Drop;
    var k := IndexOf(table.order, target);
    assert table.Rows()[k] == target.Row();
    a := SessionInvariant.DropSource(rows, ids, k);
  }

  /** The slot of a node is where the array holds it. */
  lemma SlotOf(table: Table, index: nat)
    requires table.Valid() && index < |table.pending|
    ensures table.pending[index] in Nodes(table.order) && table.pending[index].pendingIndex == index
  {
  }

  /** Every row of the table sits in some slot. */
  lemma RowSlot(table: Table, k: nat) returns (index: nat)
    requires table.Valid() && k < |table.Rows()|
    ensures index < |table.pending| && table.pending[index].Row() == table.Rows()[k]
  {
    index := table.order[k].pendingIndex;
  }

  lemma RowsAreUnique(table: Table)
    requires table.Valid()
    ensures var rows := table.Rows(); forall i, j :: 0 <= i < j < |rows| ==> rows[i].id != rows[j].id
  {
    hide RowsOf;
    MappedIsUnique(table.order, table.byRequest, table.byTid);
  }

  lemma NotStarted(table: Table, chosen: Entry -> bool, unknown: Entry -> bool, site: Site)
    requires table.Valid()
    ensures Underway(table, table.Rows(), table.Replay(), Nodes(table.order), chosen, unknown, site, map[])
  {
    hide RowsOf, Table.Valid, Drop, DropIds;
    var none: map<RequestId, Delivery> := map[];
    assert none.Keys == {};
    DropNone(table.Rows(), {});
    DropIdsNone(table.Replay(), {});
  }

  /** When no chosen row is left in the array, every chosen row was answered. */
  lemma Finished(table: Table, rows: seq<Entry>, replay: seq<RequestId>, nodes: set<Pending>,
                 chosen: Entry -> bool, unknown: Entry -> bool, site: Site, done: map<RequestId, Delivery>)
    requires Underway(table, rows, replay, nodes, chosen, unknown, site, done)
    requires forall i, j :: 0 <= i < j < |rows| ==> rows[i].id != rows[j].id
    requires forall index :: 0 <= index < |table.pending| ==> !chosen(table.pending[index].Row())
    ensures done == Chosen(rows, chosen, unknown, site)
  {
    hide RowsOf, Drop, DropIds, Table.Valid, Chosen;
    forall i | 0 <= i < |rows| && chosen(rows[i])
      ensures rows[i].id in done
    {
      if rows[i].id !in done {
        var k := SessionInvariant.DropTarget(rows, done.Keys, i);
        var index := RowSlot(table, k);
      }
    }
    ServedAll(rows, chosen, unknown, site, done);
  }

  /** Control rows of an older generation are answered while the array is walked. */
  method InvalidateControls(table: Table) returns (deliver: map<RequestId, Delivery>)
    requires table.Valid()
    modifies table, Nodes(table.order)
    ensures table.Valid() && Nodes(table.order) <= old(Nodes(table.order))
    ensures deliver == Chosen(old(table.Rows()), ScopedRow, NoRow, AtInvalidate)
    ensures table.Rows() == Drop(old(table.Rows()), deliver.Keys)
    ensures table.Replay() == DropIds(old(table.Replay()), deliver.Keys)
  {
    hide RowsOf, Drop, DropIds, Table.Valid, Partly, Nodes, Chosen, IdsOf;
    ghost var rows, replay, nodes := table.Rows(), table.Replay(), Nodes(table.order);
    RowsAreUnique(table);
    NotStarted(table, ScopedRow, NoRow, AtInvalidate);
    var index := 0;
    deliver := map[];
    while index < |table.pending|
      invariant Underway(table, rows, replay, nodes, ScopedRow, NoRow, AtInvalidate, deliver)
      invariant index <= |table.pending|
      invariant forall j :: 0 <= j < index ==> table.pending[j].generation == 0
      decreases |table.pending| - index
    {
      SlotOf(table, index);
      var pending := table.pending[index];
      if pending.generation != 0 {
        deliver := AnswerOne(table, pending, rows, replay, nodes, ScopedRow, NoRow, AtInvalidate, deliver);
      } else {
        index := index + 1;
      }
    }
    Finished(table, rows, replay, nodes, ScopedRow, NoRow, AtInvalidate, deliver);
  }

  /** Every sent row is answered, from a copy of the array taken before; then the replay list is given up. */
  method FailSentUnknown(table: Table) returns (deliver: map<RequestId, Delivery>)
    requires table.Valid()
    modifies table, Nodes(table.order)
    ensures table.Valid() && Nodes(table.order) <= old(Nodes(table.order))
    ensures deliver == Chosen(old(table.Rows()), SentRow, AnyRow, AtFailSent)
    ensures table.Rows() == Drop(old(table.Rows()), deliver.Keys)
    ensures table.Replay() == []
  {
    hide RowsOf, Drop, DropIds, Table.Valid, Partly, Nodes, Chosen, IdsOf;
    deliver := AnswerSent(table);
    ReplayIsListed(table);
    table.ClearReplay();
  }

  lemma ReplayIsListed(table: Table)
    requires table.Valid()
    ensures Nodes(table.replayOrder) <= Nodes(table.order)
  {
  }

  method AnswerSent(table: Table) returns (deliver: map<RequestId, Delivery>)
    requires table.Valid()
    modifies table, Nodes(table.order)
    ensures table.Valid() && Nodes(table.order) <= old(Nodes(table.order))
    ensures deliver == Chosen(old(table.Rows()), SentRow, AnyRow, AtFailSent)
    ensures table.Rows() == Drop(old(table.Rows()), deliver.Keys)
  {
    hide RowsOf, Drop, DropIds, Table.Valid, Partly, Nodes, Chosen, IdsOf;
    ghost var rows, replay, nodes := table.Rows(), table.Replay(), Nodes(table.order);
    RowsAreUnique(table);
    NotStarted(table, SentRow, AnyRow, AtFailSent);
    var copied := table.pending;
    CopyIsDistinct(table);
    deliver := map[];
    for index := 0 to |copied|
      invariant Underway(table, rows, replay, nodes, SentRow, AnyRow, AtFailSent, deliver)
      invariant forall j :: index <= j < |copied| ==> copied[j] in Nodes(table.order)
      invariant forall j :: 0 <= j < index && copied[j].sent ==> copied[j] !in Nodes(table.order)
    {
      if copied[index].sent {
        deliver := AnswerOne(table, copied[index], rows, replay, nodes, SentRow, AnyRow, AtFailSent, deliver);
      }
    }
    NoneSent(table, copied, nodes);
    Finished(table, rows, replay, nodes, SentRow, AnyRow, AtFailSent, deliver);
  }

  lemma CopyIsDistinct(table: Table)
    requires table.Valid()
    ensures Distinct(table.pending)
    ensures forall j :: 0 <= j < |table.pending| ==> table.pending[j] in Nodes(table.order)
    ensures forall node :: node in Nodes(table.order) ==> node in table.pending
  {
    forall node | node in Nodes(table.order)
      ensures node in table.pending
    {
      var i := IndexOf(table.order, node);
      assert table.pending[table.order[i].pendingIndex] == node;
    }
  }

  lemma NoneSent(table: Table, copied: seq<Pending>, nodes: set<Pending>)
    requires table.Valid() && Nodes(table.order) <= nodes && forall node :: node in nodes ==> node in copied
    requires forall j :: 0 <= j < |copied| && copied[j].sent ==> copied[j] !in Nodes(table.order)
    ensures forall index :: 0 <= index < |table.pending| ==> !SentRow(table.pending[index].Row())
  {
    hide Nodes;
    forall index | 0 <= index < |table.pending|
      ensures !table.pending[index].sent
    {
      SlotOf(table, index);
      assert table.pending[index] in copied;
    }
  }

  /** Every row is answered, its node is taken out of its lists, and the table is emptied in place. */
  method FailAll(table: Table) returns (deliver: map<RequestId, Delivery>)
    requires table.Valid()
    modifies table, Nodes(table.order)
    ensures table.Valid() && Nodes(table.order) <= old(Nodes(table.order))
    ensures deliver == Chosen(old(table.Rows()), AnyRow, ExecutedRow, AtFailAll)
    ensures table.Rows() == [] == Drop(old(table.Rows()), deliver.Keys)
    ensures table.Replay() == [] == DropIds(old(table.Replay()), deliver.Keys)
  {
    hide RowsOf, Table.Valid, Partly, Nodes, Chosen, IdsOf, Drop, DropIds;
    SlotsAreNodes(table);
    AllAnswered(table);
    deliver := AnswerAll(table);
    table.ResetNodes(table.pending);
    table.Empty();
    NothingHeld(table);
    NoNodes();
  }

  lemma NoNodes()
    ensures Nodes([]) == {}
  {
  }

  lemma AllAnswered(table: Table)
    requires table.Valid()
    ensures var ids := Chosen(table.Rows(), AnyRow, ExecutedRow, AtFailAll).Keys;
      Drop(table.Rows(), ids) == [] && DropIds(table.Replay(), ids) == []
  {
    hide RowsOf, Table.Valid, Nodes, Chosen, IdsOf, Drop, DropIds;
    var rows, ids := table.Rows(), Chosen(table.Rows(), AnyRow, ExecutedRow, AtFailAll).Keys;
    SessionRuns.ChosenAll(rows);
    SessionRuns.DropAll(rows, ids);
    table.ReplayWithin();
    forall i | 0 <= i < |table.Replay()| ensures table.Replay()[i] in ids {
      assert table.Replay()[i] in Ids(rows);
      var k :| 0 <= k < |rows| && rows[k].id == table.Replay()[i];
    }
    SessionRuns.DropIdsAll(table.Replay(), ids);
  }

  lemma SlotsAreNodes(table: Table)
    requires table.Valid()
    ensures Nodes(table.pending) <= Nodes(table.order)
  {
  }

  method AnswerAll(table: Table) returns (deliver: map<RequestId, Delivery>)
    requires table.Valid()
    ensures deliver == Chosen(old(table.Rows()), AnyRow, ExecutedRow, AtFailAll)
  {
    hide RowsOf, Table.Valid, Partly, Nodes, Chosen, IdsOf;
    RowsAreUnique(table);
    ghost var rows := table.Rows();
    deliver := map[];
    PartlyNone(rows, AnyRow, ExecutedRow, AtFailAll);
    for index := 0 to |table.pending|
      invariant table.Valid() && table.Rows() == rows
      invariant Partly(table.Rows(), AnyRow, ExecutedRow, AtFailAll, deliver)
      invariant forall j :: 0 <= j < index ==> table.pending[j].id in deliver
    {
      ghost var k := RowOf(table, index);
      PartlyMore(table.Rows(), AnyRow, ExecutedRow, AtFailAll, deliver, k);
      deliver := deliver[table.pending[index].id := Delivery(Failed(table.pending[index].mayHaveExecuted), AtFailAll)];
    }
    forall i | 0 <= i < |rows|
      ensures rows[i].id in deliver
    {
      var index := RowSlot(table, i);
    }
    ServedAll(rows, AnyRow, ExecutedRow, AtFailAll, deliver);
  }

  /** Each slot holds some row of the table. */
  lemma RowOf(table: Table, index: nat) returns (k: nat)
    requires table.Valid() && index < |table.pending|
    ensures k < |table.Rows()| && table.Rows()[k] == table.pending[index].Row()
  {
    k := IndexOf(table.order, table.pending[index]);
  }
}
