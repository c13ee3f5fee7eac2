/** What holds of the owner after every step of every run. */
module SessionInvariant {
  import opened Common
  import opened SessionState
  import opened SessionSteps

  // ---------------------------------------------------------------- the invariant

  /** Rows are told apart by request, transaction and sequence, and application
      requests were numbered in the order they were admitted. */
  ghost predicate Shaped(rows: seq<Entry>) {
    && (forall i, j :: 0 <= i < j < |rows| ==> rows[i].id != rows[j].id)
    && (forall i, j :: 0 <= i < j < |rows| ==> rows[i].tid != rows[j].tid)
    && (forall i, j :: 0 <= i < j < |rows| ==> SameLane(rows[i], rows[j]))
  }

  /** How an earlier admitted row relates to a later one. */
  predicate SameLane(earlier: Entry, later: Entry) {
    && (later.sequence != 0 ==> earlier.sequence != later.sequence)
    && (later.sequence != 0 && !later.control && !earlier.control ==> 0 < earlier.sequence < later.sequence)
  }

  ghost predicate Listed(replay: seq<RequestId>, rows: seq<Entry>) {
    && (forall i, j :: 0 <= i < j < |replay| ==> replay[i] != replay[j])
    && (forall i :: 0 <= i < |replay| ==> replay[i] in Ids(rows))
  }

  /** What the outside knows: the commands given, those ever handed to a writer, the results sent. */
  datatype History = History(
    commands: map<RequestId, Command>,
    dispatched: set<RequestId>,
    results: map<RequestId, seq<Delivery>>)

  function HistoryOf(s: State): (h: History) { History(s.commands, s.dispatched, s.results) }

  /** A row is waiting for its one result, and says truthfully whether it was ever dispatched. */
  ghost predicate Waits(h: History, row: Entry) {
    && row.id in h.commands
    && h.commands[row.id].control == row.control
    && (row.generation != 0 ==> row.control)
    && (row.sent ==> row.sequence != 0)
    && (row.sequence != 0 <==> row.mayHaveExecuted)
    && (row.mayHaveExecuted <==> row.id in h.dispatched)
    && Deliveries(h.results, row.id) == []
  }

  /** ErrOutcomeUnknown is only reported for dispatched requests; a dispatched application request
      that fails reports it, except when its context was found to have ended at redispatch. */
  ghost predicate Honest(h: History, id: RequestId, delivery: Delivery)
    requires id in h.commands
  {
    delivery.outcome.Failed? ==>
      && (delivery.outcome.unknown ==> id in h.dispatched && delivery.site != AtRedispatch)
      && (!delivery.outcome.unknown && id in h.dispatched && !h.commands[id].control ==> delivery.site == AtRedispatch)
  }

  /** A command that is no longer in the table has received exactly one, truthful, result. */
  ghost predicate Answered(h: History, id: RequestId)
    requires id in h.commands
  {
    && id in h.results
    && |h.results[id]| == 1
    && Honest(h, id, h.results[id][0])
  }

  ghost predicate Known(h: History, rows: seq<Entry>) {
    && h.results.Keys == h.commands.Keys
    && h.dispatched <= h.commands.Keys
    && (forall i :: 0 <= i < |rows| ==> Waits(h, rows[i]))
    && (forall id :: id in h.commands && id !in Ids(rows) ==> Answered(h, id))
  }

  /** Every sequence allocated since the numbering last restarted is below this. */
  function Ceiling(s: State): (c: nat) {
    if s.sequenceExhausted then MAX_UINT64 + 1 else s.nextOutbound
  }

  ghost predicate Numbered(rows: seq<Entry>, ceiling: nat) {
    forall i :: 0 <= i < |rows| ==> rows[i].sequence < ceiling
  }

  function LastWritten(written: seq<Write>): (sequence: nat) {
    if written == [] then 0 else written[|written| - 1].sequence
  }

  /** The frames written on one transport: strictly increasing, replays first. */
  ghost predicate Ordered(written: seq<Write>) {
    && (forall i, j :: 0 <= i < j < |written| ==> written[i].sequence < written[j].sequence)
    && (forall i, j :: 0 <= i < j < |written| && written[j].replay ==> written[i].replay)
  }

  /** What is still to be written on the transport comes after what was written. */
  ghost predicate Ahead(written: seq<Write>, rows: seq<Entry>, ceiling: nat) {
    && LastWritten(written) < ceiling
    && (forall i :: 0 <= i < |rows| && UnsentReplay(rows[i]) ==> LastWritten(written) < rows[i].sequence)
    && (written != [] && !written[|written| - 1].replay ==> forall i :: 0 <= i < |rows| ==> !UnsentReplay(rows[i]))
  }

  /** When a command was admitted. */
  function Turn(admissions: map<RequestId, nat>, id: RequestId): (turn: nat) {
    if id in admissions then admissions[id] else 0
  }

  /** Rows are in the order of their admission, and so are the first writes of application requests
      on this transport; those still to be written were admitted after all of them. */
  ghost predicate InTurn(admissions: map<RequestId, nat>, rows: seq<Entry>, written: seq<Write>) {
    && (forall i :: 0 <= i < |rows| ==> rows[i].id in admissions)
    && (forall i, j :: 0 <= i < j < |rows| ==> Turn(admissions, rows[i].id) < Turn(admissions, rows[j].id))
    && (forall k :: 0 <= k < |written| ==> written[k].id in admissions)
    && (forall k, l :: 0 <= k < l < |written| && FirstWrite(written[k]) && FirstWrite(written[l]) ==>
          Turn(admissions, written[k].id) < Turn(admissions, written[l].id))
    && (forall k, i ::
        0 <= k < |written| && 0 <= i < |rows| && FirstWrite(written[k]) && UnnumberedApplication(rows[i]) ==>
          Turn(admissions, written[k].id) < Turn(admissions, rows[i].id))
  }

  predicate UnnumberedApplication(row: Entry) { row.sequence == 0 && !row.control }

  /** Turns are handed out one after another, to commands given. */
  ghost predicate Admissible(admissions: map<RequestId, nat>, admitted: nat, commands: map<RequestId, Command>) {
    && admissions.Keys <= commands.Keys
    && (forall id :: id in admissions ==> admissions[id] < admitted)
  }

  /** Nothing is written on a transport before its handshake is over. */
  ghost predicate Quiet(s: State) {
    s.linked && s.phase != Ready && s.phase != Stopped ==> s.written == []
  }

  ghost predicate RowsBounded(rows: seq<Entry>, config: Config) {
    && SumOf(rows, ControlRow) <= MAX_CONTROL_MESSAGES
    && SumOf(rows, ControlBytes) <= MAX_CONTROL_RETAINED_BYTES
    && |rows| - SumOf(rows, ControlRow) <= config.maxQueued
    && SumOf(rows, ApplicationBytes) <= config.maxRetained
    && SumOf(rows, InFlightRow) <= config.maxInFlight
  }

  ghost predicate QueueBounded(s: State) {
    |s.controlQueue| + (if s.pendingAck != 0 then 1 else 0) <= s.config.maxQueued
  }

  ghost predicate Invariant(s: State) {
    && Shaped(s.pending)
    && Listed(s.replay, s.pending)
    && Known(HistoryOf(s), s.pending)
    && Numbered(s.pending, Ceiling(s))
    && (!s.sequenceExhausted ==> 1 <= s.nextOutbound <= MAX_UINT64)
    && s.nextTid <= MAX_UINT64
    && Ordered(s.written)
    && (s.linked ==> Ahead(s.written, s.pending, Ceiling(s)))
    && Quiet(s)
    && (s.connectPending ==> !s.linked)
    && RowsBounded(s.pending, s.config)
    && QueueBounded(s)
    && InTurn(s.admissions, s.pending, s.written)
    && Admissible(s.admissions, s.admitted, s.commands)
  }

  // ---------------------------------------------------------------- dropping rows

  /** Where a row that survives a Drop stood before it. */
  lemma {:induction false} DropSource(rows: seq<Entry>, ids: set<RequestId>, i: nat) returns (a: nat)
    requires i < |Drop(rows, ids)|
    ensures a < |rows| && Drop(rows, ids)[i] == rows[a] && rows[a].id !in ids
  {
    if i < |Drop(rows[..|rows| - 1], ids)| {
      a := DropSource(rows[..|rows| - 1], ids, i);
    } else {
      a := |rows| - 1;
    }
  }

  /** Surviving rows keep their order. */
  lemma {:induction false} DropPair(rows: seq<Entry>, ids: set<RequestId>, i: nat, j: nat) returns (a: nat, b: nat)
    requires i < j < |Drop(rows, ids)|
    ensures a < b < |rows| && Drop(rows, ids)[i] == rows[a] && Drop(rows, ids)[j] == rows[b]
  {
    if j < |Drop(rows[..|rows| - 1], ids)| {
      a, b := DropPair(rows[..|rows| - 1], ids, i, j);
    } else {
      a := DropSource(rows[..|rows| - 1], ids, i);
      b := |rows| - 1;
    }
  }

  /** A row that is not dropped survives. */
  lemma {:induction false} DropTarget(rows: seq<Entry>, ids: set<RequestId>, k: nat) returns (i: nat)
    requires k < |rows| && rows[k].id !in ids
    ensures i < |Drop(rows, ids)| && Drop(rows, ids)[i] == rows[k]
  {
    if k < |rows| - 1 {
      i := DropTarget(rows[..|rows| - 1], ids, k);
    } else {
      i := |Drop(rows[..|rows| - 1], ids)|;
    }
  }

  lemma DropKeepsShape(rows: seq<Entry>, ids: set<RequestId>)
    requires Shaped(rows)
    ensures Shaped(Drop(rows, ids))
  {
    hide Drop, SameLane;
    var rest := Drop(rows, ids);
    forall i, j | 0 <= i < j < |rest|
      ensures rest[i].id != rest[j].id && rest[i].tid != rest[j].tid && SameLane(rest[i], rest[j])
    {
      var a, b := DropPair(rows, ids, i, j);
    }
  }

  lemma DropKeepsIds(rows: seq<Entry>, ids: set<RequestId>)
    ensures Ids(Drop(rows, ids)) == Ids(rows) - ids
  {
    hide Drop;
    var rest := Drop(rows, ids);
    forall id | id in Ids(rows) - ids
      ensures id in Ids(rest)
    {
      var k :| 0 <= k < |rows| && rows[k].id == id;
      var i := DropTarget(rows, ids, k);
      assert rest[i].id == id;
    }
    forall id | id in Ids(rest)
      ensures id in Ids(rows) - ids
    {
      var i :| 0 <= i < |rest| && rest[i].id == id;
      var a := DropSource(rows, ids, i);
    }
  }

  lemma {:induction false} SumAppend(rows: seq<Entry>, row: Entry, weight: Entry -> nat)
    ensures SumOf(rows + [row], weight) == SumOf(rows, weight) + weight(row)
  {
    assert (rows + [row])[..|rows|] == rows;
  }

  lemma {:induction false} DropShrinksSum(rows: seq<Entry>, ids: set<RequestId>, weight: Entry -> nat)
    ensures SumOf(Drop(rows, ids), weight) <= SumOf(rows, weight)
  {
    if rows != [] {
      DropShrinksSum(rows[..|rows| - 1], ids, weight);
      var rest := Drop(rows[..|rows| - 1], ids);
      assert rest + [] == rest;
      SumAppend(rest, rows[|rows| - 1], weight);
    }
  }

  /** The application rows are what the queue limit counts. */
  function ApplicationRow(row: Entry): (n: nat) { if row.control then 0 else 1 }

  lemma {:induction false} ApplicationRows(rows: seq<Entry>)
    ensures SumOf(rows, ApplicationRow) == |rows| - SumOf(rows, ControlRow)
  {
    if rows != [] { ApplicationRows(rows[..|rows| - 1]); }
  }

  lemma {:induction false} DropIdsKeeps(list: seq<RequestId>, ids: set<RequestId>)
    requires forall i, j :: 0 <= i < j < |list| ==> list[i] != list[j]
    ensures var rest := DropIds(list, ids);
      && (forall i, j :: 0 <= i < j < |rest| ==> rest[i] != rest[j])
      && (forall id :: id in rest <==> id in list && id !in ids)
  {
    if list != [] {
      DropIdsKeeps(list[..|list| - 1], ids);
      assert list == list[..|list| - 1] + [list[|list| - 1]];
    }
  }

  // ---------------------------------------------------------------- settling

  /** Deliveries a step may make: one per pending row, each truthful. */
  ghost predicate Fair(h: History, rows: seq<Entry>, deliver: map<RequestId, Delivery>) {
    && deliver.Keys <= Ids(rows)
    && (forall id :: id in deliver ==> id in h.commands && Honest(h, id, deliver[id]))
  }

  lemma DropKeepsListed(replay: seq<RequestId>, rows: seq<Entry>, ids: set<RequestId>)
    requires Listed(replay, rows)
    ensures Listed(DropIds(replay, ids), Drop(rows, ids))
  {
    hide Drop, Ids;
    DropIdsKeeps(replay, ids);
    DropKeepsIds(rows, ids);
    var rest := DropIds(replay, ids);
    forall i | 0 <= i < |rest|
      ensures rest[i] in Ids(Drop(rows, ids))
    {
      assert rest[i] in rest;
      var k :| 0 <= k < |replay| && replay[k] == rest[i];
    }
  }

  lemma WaitsAt(h: History, rows: seq<Entry>, id: RequestId)
    requires Known(h, rows) && id in Ids(rows)
    ensures id in h.commands && id in h.results && h.results[id] == []
  {
    var k :| 0 <= k < |rows| && rows[k].id == id;
    assert Waits(h, rows[k]);
  }

  lemma SettleDelivers(s: State, deliver: map<RequestId, Delivery>, id: RequestId)
    requires Known(HistoryOf(s), s.pending) && Fair(HistoryOf(s), s.pending, deliver) && id in deliver
    ensures id in s.results && Settle(s, deliver).results[id] == [deliver[id]]
  {
    hide Drop, DropIds, Ids, Known;
    WaitsAt(HistoryOf(s), s.pending, id);
  }

  lemma SettleKeepsWaiting(s: State, deliver: map<RequestId, Delivery>, i: nat)
    requires Known(HistoryOf(s), s.pending) && i < |Drop(s.pending, deliver.Keys)|
    ensures Waits(HistoryOf(Settle(s, deliver)), Drop(s.pending, deliver.Keys)[i])
  {
    hide Drop, DropIds, Ids;
    var a := DropSource(s.pending, deliver.Keys, i);
    assert Waits(HistoryOf(s), s.pending[a]);
  }

  lemma SettleKeepsAnswered(s: State, deliver: map<RequestId, Delivery>, id: RequestId)
    requires Known(HistoryOf(s), s.pending) && Fair(HistoryOf(s), s.pending, deliver)
    requires id in s.commands && id !in Ids(Drop(s.pending, deliver.Keys))
    ensures Answered(HistoryOf(Settle(s, deliver)), id)
  {
    hide Drop, DropIds, Ids;
    DropKeepsIds(s.pending, deliver.Keys);
    if id in deliver {
      SettleDelivers(s, deliver, id);
    } else {
      assert Answered(HistoryOf(s), id);
      assert Settle(s, deliver).results[id] == s.results[id] + [];
    }
  }

  lemma SettleKeepsKnown(s: State, deliver: map<RequestId, Delivery>)
    requires Known(HistoryOf(s), s.pending) && Fair(HistoryOf(s), s.pending, deliver)
    ensures Known(HistoryOf(Settle(s, deliver)), Settle(s, deliver).pending)
  {
    hide Drop, DropIds, Ids, Waits, Answered;
    var t := Settle(s, deliver);
    forall i | 0 <= i < |t.pending|
      ensures Waits(HistoryOf(t), t.pending[i])
    {
      SettleKeepsWaiting(s, deliver, i);
    }
    forall id | id in t.commands && id !in Ids(t.pending)
      ensures Answered(HistoryOf(t), id)
    {
      SettleKeepsAnswered(s, deliver, id);
    }
    assert t.results.Keys == s.results.Keys by {
      forall id | id in deliver
        ensures id in s.results
      {
        SettleDelivers(s, deliver, id);
      }
    }
  }

  lemma DropKeepsNumbers(rows: seq<Entry>, ids: set<RequestId>, written: seq<Write>, ceiling: nat)
    ensures Numbered(rows, ceiling) ==> Numbered(Drop(rows, ids), ceiling)
    ensures Ahead(written, rows, ceiling) ==> Ahead(written, Drop(rows, ids), ceiling)
  {
    hide Drop;
    var rest := Drop(rows, ids);
    forall i | 0 <= i < |rest|
      ensures exists a :: 0 <= a < |rows| && rows[a] == rest[i]
    {
      var a := DropSource(rows, ids, i);
    }
  }

  lemma DropKeepsBounds(rows: seq<Entry>, ids: set<RequestId>, config: Config)
    requires RowsBounded(rows, config)
    ensures RowsBounded(Drop(rows, ids), config)
  {
    hide Drop, SumOf;
    DropShrinksSum(rows, ids, ControlRow);
    DropShrinksSum(rows, ids, ControlBytes);
    DropShrinksSum(rows, ids, ApplicationBytes);
    DropShrinksSum(rows, ids, InFlightRow);
    DropShrinksSum(rows, ids, ApplicationRow);
    ApplicationRows(rows);
    ApplicationRows(Drop(rows, ids));
  }

  lemma DropKeepsTurn(admissions: map<RequestId, nat>, rows: seq<Entry>, written: seq<Write>, ids: set<RequestId>)
    requires InTurn(admissions, rows, written)
    ensures InTurn(admissions, Drop(rows, ids), written)
  {
    hide Drop, FirstWrite;
    var rest := Drop(rows, ids);
    forall i, j | 0 <= i < j < |rest| ensures Turn(admissions, rest[i].id) < Turn(admissions, rest[j].id) {
      var a, b := DropPair(rows, ids, i, j);
    }
    forall i | 0 <= i < |rest| ensures exists a :: 0 <= a < |rows| && rows[a] == rest[i] {
      var a := DropSource(rows, ids, i);
    }
  }

  lemma SettleKeepsInvariant(s: State, deliver: map<RequestId, Delivery>)
    requires Invariant(s) && Fair(HistoryOf(s), s.pending, deliver)
    ensures Invariant(Settle(s, deliver))
  {
    hide Shaped, Listed, Known, Numbered, Ordered, Ahead, RowsBounded, InTurn, Admissible, Fair, Drop, DropIds;
    DropKeepsShape(s.pending, deliver.Keys);
    DropKeepsListed(s.replay, s.pending, deliver.Keys);
    SettleKeepsKnown(s, deliver);
    DropKeepsNumbers(s.pending, deliver.Keys, s.written, Ceiling(s));
    DropKeepsBounds(s.pending, deliver.Keys, s.config);
    DropKeepsTurn(s.admissions, s.pending, s.written, deliver.Keys);
  }

  /** An empty table keeps every promise about rows. */
  lemma EmptyTable(config: Config, admissions: map<RequestId, nat>, rows: seq<Entry>, written: seq<Write>, ceiling: nat)
    ensures Shaped([]) && Listed([], []) && RowsBounded([], config)
    ensures Numbered([], ceiling)
    ensures LastWritten(written) < ceiling ==> Ahead(written, [], ceiling)
    ensures InTurn(admissions, rows, written) ==> InTurn(admissions, [], written)
  {
  }
}
