/** Every branch of the owner's loop keeps the invariant, so every run does. */
module SessionRuns {
  import opened Common
  import opened SessionState
  import opened SessionSteps
  import opened SessionInvariant

  // ---------------------------------------------------------------- settling many rows

  lemma {:induction false} ChosenKeys(rows: seq<Entry>, chosen: Entry -> bool, unknown: Entry -> bool, site: Site,
                                      id: RequestId)
    requires id in Chosen(rows, chosen, unknown, site)
    ensures exists i ::
      (0 <= i < |rows| && rows[i].id == id && chosen(rows[i])
       && Chosen(rows, chosen, unknown, site)[id] == Delivery(Failed(unknown(rows[i])), site))
  {
    var last := rows[|rows| - 1];
    if !(chosen(last) && last.id == id) {
      ChosenKeys(rows[..|rows| - 1], chosen, unknown, site, id);
      var i :| 0 <= i < |rows| - 1 && rows[i].id == id && chosen(rows[i])
        && Chosen(rows[..|rows| - 1], chosen, unknown, site)[id] == Delivery(Failed(unknown(rows[i])), site);
      assert rows[i].id == id && chosen(rows[i]);
    }
  }

  lemma {:induction false} ChosenCovers(rows: seq<Entry>, chosen: Entry -> bool, unknown: Entry -> bool, site: Site,
                                        i: nat)
    requires i < |rows| && chosen(rows[i])
    ensures rows[i].id in Chosen(rows, chosen, unknown, site)
  {
    if i < |rows| - 1 {
      ChosenCovers(rows[..|rows| - 1], chosen, unknown, site, i);
    }
  }

  /** A bulk settlement is fair when its error matches what each row may have done. */
  ghost predicate FairWhere(rows: seq<Entry>, chosen: Entry -> bool, unknown: Entry -> bool) {
    forall i :: 0 <= i < |rows| && chosen(rows[i]) ==>
      && (unknown(rows[i]) ==> rows[i].mayHaveExecuted)
      && (!unknown(rows[i]) && rows[i].mayHaveExecuted ==> rows[i].control)
  }

  lemma SettleWhereIsFair(s: State, chosen: Entry -> bool, unknown: Entry -> bool, site: Site)
    requires Known(HistoryOf(s), s.pending) && FairWhere(s.pending, chosen, unknown) && site != AtRedispatch
    ensures Fair(HistoryOf(s), s.pending, Chosen(s.pending, chosen, unknown, site))
  {
    hide Chosen;
    var deliver := Chosen(s.pending, chosen, unknown, site);
    forall id | id in deliver
      ensures id in Ids(s.pending) && id in s.commands && Honest(HistoryOf(s), id, deliver[id])
    {
      ChosenKeys(s.pending, chosen, unknown, site, id);
      var i :| 0 <= i < |s.pending| && s.pending[i].id == id && chosen(s.pending[i])
        && deliver[id] == Delivery(Failed(unknown(s.pending[i])), site);
      assert Waits(HistoryOf(s), s.pending[i]);
    }
  }

  lemma SettleWhereKeeps(s: State, chosen: Entry -> bool, unknown: Entry -> bool, site: Site)
    requires Invariant(s) && FairWhere(s.pending, chosen, unknown) && site != AtRedispatch
    ensures Invariant(SettleWhere(s, chosen, unknown, site))
  {
    hide Shaped, Listed, Known, Numbered, Ordered, Ahead, RowsBounded, InTurn, Admissible, Fair, FairWhere, Chosen,
        Settle;
    SettleWhereIsFair(s, chosen, unknown, site);
    SettleKeepsInvariant(s, Chosen(s.pending, chosen, unknown, site));
  }

  /** The three bulk settlements of the owner are fair on truthful rows. */
  lemma BulkIsFair(h: History, rows: seq<Entry>)
    requires Known(h, rows)
    ensures FairWhere(rows, ScopedRow, NoRow)
    ensures FairWhere(rows, SentRow, AnyRow)
    ensures FairWhere(rows, AnyRow, ExecutedRow)
  {
    hide Ids, Answered;
    assert forall i :: 0 <= i < |rows| ==> Waits(h, rows[i]);
  }

  lemma InvalidateKeeps(s: State)
    requires Invariant(s)
    ensures Invariant(InvalidateControls(s))
  {
    hide Shaped, Listed, Known, Numbered, Ordered, Ahead, RowsBounded, InTurn, Admissible, FairWhere, Drop, DropIds,
        Delivered, Chosen, Unsend, Trimmed;
    BulkIsFair(HistoryOf(s), s.pending);
    SettleWhereKeeps(s, ScopedRow, NoRow, AtInvalidate);
  }

  lemma ClearReplayKeeps(s: State)
    requires Invariant(s)
    ensures Invariant(s.(replay := []))
  {
    hide Shaped, Known, Numbered, Ordered, Ahead, RowsBounded, InTurn, Admissible;
  }

  lemma FailSentFrame(s: State)
    ensures FailSentUnknown(s).linked == s.linked && FailSentUnknown(s).phase == s.phase
  {
    hide Drop, DropIds, Delivered, Chosen, Unsend, Trimmed;
  }

  lemma FailSentKeeps(s: State)
    requires Invariant(s)
    ensures Invariant(FailSentUnknown(s))
    ensures FailSentUnknown(s).linked == s.linked && FailSentUnknown(s).phase == s.phase
  {
    FailSentFrame(s);
    hide Shaped, Listed, Known, Numbered, Ordered, Ahead, RowsBounded, InTurn, Admissible, FairWhere, SettleWhere;
    BulkIsFair(HistoryOf(s), s.pending);
    SettleWhereKeeps(s, SentRow, AnyRow, AtFailSent);
    ClearReplayKeeps(SettleWhere(s, SentRow, AnyRow, AtFailSent));
  }

  lemma DropAll(rows: seq<Entry>, ids: set<RequestId>)
    requires forall i :: 0 <= i < |rows| ==> rows[i].id in ids
    ensures Drop(rows, ids) == []
  {
    hide Drop;
    if Drop(rows, ids) != [] {
      var a := DropSource(rows, ids, 0);
    }
  }

  lemma {:induction false} DropIdsAll(list: seq<RequestId>, ids: set<RequestId>)
    requires forall i :: 0 <= i < |list| ==> list[i] in ids
    ensures DropIds(list, ids) == []
  {
    if list != [] { DropIdsAll(list[..|list| - 1], ids); }
  }

  lemma DropAllListed(replay: seq<RequestId>, rows: seq<Entry>, ids: set<RequestId>)
    requires Listed(replay, rows)
    requires forall i :: 0 <= i < |rows| ==> rows[i].id in ids
    ensures DropIds(replay, ids) == []
  {
    forall i | 0 <= i < |replay|
      ensures replay[i] in ids
    {
      assert replay[i] in Ids(rows);
    }
    DropIdsAll(replay, ids);
  }

  lemma ChosenAll(rows: seq<Entry>)
    ensures forall i :: 0 <= i < |rows| ==> rows[i].id in Chosen(rows, AnyRow, ExecutedRow, AtFailAll).Keys
  {
    hide Chosen;
    forall i | 0 <= i < |rows|
      ensures rows[i].id in Chosen(rows, AnyRow, ExecutedRow, AtFailAll)
    {
      ChosenCovers(rows, AnyRow, ExecutedRow, AtFailAll, i);
    }
  }

  /** FailAll touches nothing but the table and the results. */
  lemma FailAllFrame(s: State)
    ensures var ids := Chosen(s.pending, AnyRow, ExecutedRow, AtFailAll).Keys;
      FailAll(s) == s.(pending := Drop(s.pending, ids), replay := DropIds(s.replay, ids), results := FailAll(s).results)
  {
    hide Drop, DropIds, Chosen, Delivered;
  }

  /** Settling every row empties the table. */
  lemma FailAllEmpties(s: State)
    requires Listed(s.replay, s.pending)
    ensures FailAll(s) == s.(pending := [], replay := [], results := FailAll(s).results)
  {
    FailAllFrame(s);
    hide Drop, DropIds, Chosen, Listed, Delivered, FailAll;
    var ids := Chosen(s.pending, AnyRow, ExecutedRow, AtFailAll).Keys;
    ChosenAll(s.pending);
    DropAll(s.pending, ids);
    DropAllListed(s.replay, s.pending, ids);
  }

  lemma FailAllKeepsKnown(s: State)
    requires Known(HistoryOf(s), s.pending)
    ensures Known(HistoryOf(FailAll(s)), FailAll(s).pending)
  {
    hide Known, FairWhere, Fair, Chosen, Drop, DropIds;
    BulkIsFair(HistoryOf(s), s.pending);
    SettleWhereIsFair(s, AnyRow, ExecutedRow, AtFailAll);
    SettleKeepsKnown(s, Chosen(s.pending, AnyRow, ExecutedRow, AtFailAll));
  }

  /** FailAll needs only that the rows are truthful: afterwards no row is left to number. */
  lemma FailAllRestores(s: State)
    requires Listed(s.replay, s.pending) && Known(HistoryOf(s), s.pending) && Ordered(s.written)
             && s.nextTid <= MAX_UINT64
    requires InTurn(s.admissions, s.pending, s.written) && Admissible(s.admissions, s.admitted, s.commands)
    requires !s.sequenceExhausted ==> 1 <= s.nextOutbound <= MAX_UINT64
    requires s.linked ==> LastWritten(s.written) < Ceiling(s)
    requires Quiet(s) && QueueBounded(s) && (s.connectPending ==> !s.linked)
    ensures Invariant(FailAll(s))
    ensures FailAll(s) == s.(pending := [], replay := [], results := FailAll(s).results)
  {
    FailAllKeepsKnown(s);
    FailAllEmpties(s);
    hide Shaped, Listed, Known, Numbered, Ordered, Ahead, RowsBounded, InTurn, Admissible, FailAll;
    EmptyTable(s.config, s.admissions, s.pending, s.written, Ceiling(s));
  }

  lemma FailEveryKeeps(s: State)
    requires Invariant(s) && !s.linked
    ensures Invariant(FailAll(s)) && !FailAll(s).linked
  {
    hide Shaped, Listed, Known, Numbered, Ordered, Ahead, RowsBounded, InTurn, Admissible, FailAll;
    FailAllRestores(s);
  }

  // ---------------------------------------------------------------- replay

  lemma {:induction false} UnsendSums(rows: seq<Entry>, ids: seq<RequestId>)
    ensures SumOf(Unsend(rows, ids), ControlRow) == SumOf(rows, ControlRow)
    ensures SumOf(Unsend(rows, ids), ControlBytes) == SumOf(rows, ControlBytes)
    ensures SumOf(Unsend(rows, ids), ApplicationBytes) == SumOf(rows, ApplicationBytes)
    ensures SumOf(Unsend(rows, ids), InFlightRow) <= SumOf(rows, InFlightRow)
  {
    if rows != [] {
      UnsendSums(rows[..|rows| - 1], ids);
      assert Unsend(rows, ids)[..|rows| - 1] == Unsend(rows[..|rows| - 1], ids);
    }
  }

  lemma UnsendIds(rows: seq<Entry>, ids: seq<RequestId>)
    ensures Ids(Unsend(rows, ids)) == Ids(rows)
  {
    var rows' := Unsend(rows, ids);
    forall id | id in Ids(rows)
      ensures id in Ids(rows')
    {
      var k :| 0 <= k < |rows| && rows[k].id == id;
      assert rows'[k].id == id;
    }
  }

  lemma UnsendKeepsShape(rows: seq<Entry>, ids: seq<RequestId>)
    requires Shaped(rows)
    ensures Shaped(Unsend(rows, ids))
  {
    var rows' := Unsend(rows, ids);
    forall i, j | 0 <= i < j < |rows|
      ensures rows'[i].id != rows'[j].id && rows'[i].tid != rows'[j].tid && SameLane(rows'[i], rows'[j])
    {
      assert SameLane(rows[i], rows[j]);
    }
  }

  lemma UnsendKeepsKnown(h: History, rows: seq<Entry>, ids: seq<RequestId>)
    requires Known(h, rows)
    ensures Known(h, Unsend(rows, ids))
  {
    hide Ids, Answered;
    UnsendIds(rows, ids);
    var rows' := Unsend(rows, ids);
    forall i | 0 <= i < |rows'|
      ensures Waits(h, rows'[i])
    {
      assert Waits(h, rows[i]);
    }
  }

  lemma UnsendKeepsNumbers(rows: seq<Entry>, ids: seq<RequestId>, ceiling: nat)
    requires Numbered(rows, ceiling) && 1 <= ceiling
    ensures Numbered(Unsend(rows, ids), ceiling)
    ensures Ahead([], Unsend(rows, ids), ceiling)
  {
  }

  lemma UnsendKeepsListed(replay: seq<RequestId>, rows: seq<Entry>, ids: seq<RequestId>)
    requires Listed(replay, rows)
    ensures Listed(replay, Unsend(rows, ids))
  {
    hide Unsend, Ids;
    UnsendIds(rows, ids);
  }

  lemma UnsendKeepsBounds(rows: seq<Entry>, ids: seq<RequestId>, config: Config)
    requires RowsBounded(rows, config)
    ensures RowsBounded(Unsend(rows, ids), config)
  {
    hide SumOf;
    UnsendSums(rows, ids);
  }

  lemma UnsendKeepsTurn(admissions: map<RequestId, nat>, rows: seq<Entry>, written: seq<Write>, ids: seq<RequestId>)
    requires InTurn(admissions, rows, written)
    ensures InTurn(admissions, Unsend(rows, ids), written)
  {
    hide FirstWrite;
    var rows' := Unsend(rows, ids);
    assert forall i :: 0 <= i < |rows| ==>
        rows'[i].id == rows[i].id && UnnumberedApplication(rows'[i]) == UnnumberedApplication(rows[i]);
  }

  /** Requests may only be marked for replay while nothing is written on this transport. */
  lemma PrepareReplayKeeps(s: State)
    requires Invariant(s)
    requires s.linked ==> s.written == []
    ensures Invariant(PrepareReplay(s))
    ensures PrepareReplay(s).linked == s.linked && PrepareReplay(s).written == s.written
  {
    hide Shaped, Listed, Known, Numbered, Ordered, Ahead, RowsBounded, InTurn, Admissible, Unsend;
    UnsendKeepsShape(s.pending, s.replay);
    UnsendKeepsKnown(HistoryOf(s), s.pending, s.replay);
    UnsendKeepsNumbers(s.pending, s.replay, Ceiling(s));
    UnsendKeepsListed(s.replay, s.pending, s.replay);
    UnsendKeepsBounds(s.pending, s.replay, s.config);
    UnsendKeepsTurn(s.admissions, s.pending, s.written, s.replay);
  }

  lemma SuffixKeepsListed(replay: seq<RequestId>, rows: seq<Entry>, skip: nat)
    requires Listed(replay, rows) && skip <= |replay|
    ensures Listed(replay[skip..], rows)
  {
  }

  lemma TrimReplayKeeps(s: State, sequence: nat)
    requires Invariant(s)
    ensures Invariant(TrimReplay(s, sequence))
  {
    hide Shaped, Listed, Known, Numbered, Ordered, Ahead, RowsBounded, InTurn, Admissible, SequenceOf;
    SuffixKeepsListed(s.replay, s.pending, |s.replay| - |Trimmed(s.replay, s.pending, sequence)|);
  }

  // ---------------------------------------------------------------- faults

  lemma ResetIdentityKeeps(s: State)
    requires Invariant(s) && !s.linked
    ensures Invariant(ResetForNewIdentity(s))
    ensures ResetForNewIdentity(s).linked == false && ResetForNewIdentity(s).connectPending == s.connectPending
  {
    hide Shaped, Listed, Known, Numbered, Ordered, Ahead, RowsBounded, InTurn, Admissible, Drop, DropIds, Delivered,
        Chosen, Unsend, Trimmed;
    FailAllRestores(s.(pendingAck := 0, serverCookie := 0, lossy := false, connectSequence := 0,
                       lastInbound := 0, nextOutbound := 1, sequenceExhausted := false,
                       nextTid := 1, tidExhausted := false));
  }

  lemma FailTerminalKeeps(s: State)
    requires Invariant(s)
    ensures Invariant(FailTerminal(s))
  {
    hide Shaped, Listed, Known, Numbered, Ordered, Ahead, RowsBounded, InTurn, Admissible, Drop, DropIds, Delivered,
        Chosen, Unsend, Trimmed;
    InvalidateKeeps(s);
    FailAllRestores(InvalidateControls(s).(pendingAck := 0, generation := s.generation + 1, terminal := true,
                                           linked := false, writeBusy := false, controlQueue := [],
                                           connectPending := false));
  }

  lemma BeginReconnectKeeps(s: State)
    requires Invariant(s) && !s.linked
    ensures Invariant(BeginReconnect(s))
  {
    hide Shaped, Listed, Known, Numbered, Ordered, Ahead, RowsBounded, InTurn, Admissible, FailTerminal;
    if s.config.maxReconnects > 0 && s.reconnectAttempts >= s.config.maxReconnects {
      FailTerminalKeeps(s);
    }
  }

  lemma SettleFaultKeeps(s: State)
    requires Invariant(s) && !s.linked
    ensures Invariant(SettleFault(s)) && !SettleFault(s).linked
  {
    hide Invariant, FailSentUnknown, FailAll, ResetForNewIdentity, PrepareReplay;
    if s.lossy {
      FailSentKeeps(s);
      ResetIdentityKeeps(FailSentUnknown(s));
    } else if s.config.policy == FailPending {
      FailEveryKeeps(s);
    } else if s.serverCookie == 0 {
      FailSentKeeps(s);
    } else {
      PrepareReplayKeeps(s);
    }
  }

  lemma UnlinkKeeps(s: State)
    requires Invariant(s)
    ensures Invariant(s.(pendingAck := 0, linked := false, writeBusy := false, controlQueue := []))
    ensures !s.linked ==> Invariant(s.(phase := Disconnected))
  {
    hide Shaped, Listed, Known, Numbered, Ordered, Ahead, RowsBounded, InTurn, Admissible;
  }

  lemma HandleFaultKeeps(s: State)
    requires Invariant(s)
    ensures Invariant(HandleFault(s))
  {
    hide Invariant, InvalidateControls, SettleFault, BeginReconnect;
    if !IgnoresFault(s) {
      InvalidateKeeps(s);
      UnlinkKeeps(InvalidateControls(s));
      var cut := InvalidateControls(s).(pendingAck := 0, linked := false, writeBusy := false, controlQueue := []);
      SettleFaultKeeps(cut);
      UnlinkKeeps(SettleFault(cut));
      BeginReconnectKeeps(SettleFault(cut).(phase := Disconnected));
    }
  }

  // ---------------------------------------------------------------- control frames out

  lemma QueueFrameKeeps(s: State, frame: ControlFrame)
    requires Invariant(s) && |s.controlQueue| + (if s.pendingAck != 0 then 1 else 0) < s.config.maxQueued
    ensures Invariant(s.(controlQueue := s.controlQueue + [frame]))
  {
    hide Shaped, Listed, Known, Numbered, Ordered, Ahead, RowsBounded, InTurn, Admissible;
  }

  lemma QueueControlKeeps(s: State, frame: ControlFrame)
    requires Invariant(s)
    ensures Invariant(QueueControl(s, frame))
  {
    hide Invariant, HandleFault;
    if !s.config.fits(frame) || |s.controlQueue| + (if s.pendingAck != 0 then 1 else 0) >= s.config.maxQueued {
      HandleFaultKeeps(s);
    } else {
      QueueFrameKeeps(s, frame);
    }
  }

  lemma AckKeeps(s: State, sequence: nat)
    requires Invariant(s)
    requires s.pendingAck != 0 || |s.controlQueue| < s.config.maxQueued || sequence == 0
    ensures Invariant(s.(pendingAck := sequence))
  {
    hide Shaped, Listed, Known, Numbered, Ordered, Ahead, RowsBounded, InTurn, Admissible;
  }

  lemma FlushKeeps(s: State)
    requires Invariant(s)
    ensures Invariant(FlushAcknowledgment(s))
  {
    hide Invariant, QueueControl;
    if s.pendingAck != 0 {
      AckKeeps(s, 0);
      QueueControlKeeps(s.(pendingAck := 0), AckFrame(s.pendingAck));
    }
  }

  lemma QueueAcknowledgmentKeeps(s: State, sequence: nat)
    requires Invariant(s)
    ensures Invariant(QueueAcknowledgment(s, sequence))
  {
    hide Invariant, HandleFault, QueueControl;
    if s.phase != Ready {
      QueueControlKeeps(s, AckFrame(sequence));
    } else if s.pendingAck == 0 && |s.controlQueue| >= s.config.maxQueued {
      HandleFaultKeeps(s);
    } else {
      AckKeeps(s, sequence);
    }
  }

  lemma SendReconnectKeeps(s: State)
    requires Invariant(s)
    ensures Invariant(SendReconnect(s))
  {
    hide Shaped, Listed, Known, Numbered, Ordered, Ahead, RowsBounded, InTurn, Admissible, QueueControl;
    QueueControlKeeps(s.(controlQueue := []), ReconnectFrame(s.connectSequence, s.lastInbound));
  }

  // ---------------------------------------------------------------- admission

  lemma AppendIds(rows: seq<Entry>, row: Entry)
    ensures Ids(rows + [row]) == Ids(rows) + {row.id}
  {
    var rows' := rows + [row];
    assert rows'[|rows|] == row;
    forall id | id in Ids(rows)
      ensures id in Ids(rows')
    {
      var k :| 0 <= k < |rows| && rows[k].id == id;
      assert rows'[k].id == id;
    }
  }

  lemma AppendKeepsShape(rows: seq<Entry>, row: Entry)
    requires Shaped(rows) && row.sequence == 0
    requires row.id !in Ids(rows) && row.tid !in Tids(rows)
    ensures Shaped(rows + [row])
  {
    var rows' := rows + [row];
    forall i, j | 0 <= i < j < |rows'|
      ensures rows'[i].id != rows'[j].id && rows'[i].tid != rows'[j].tid && SameLane(rows'[i], rows'[j])
    {
      assert rows[i].id in Ids(rows) && rows[i].tid in Tids(rows);
      if j < |rows| { assert SameLane(rows[i], rows[j]); }
    }
  }

  lemma AppendKeepsListed(replay: seq<RequestId>, rows: seq<Entry>, row: Entry)
    requires Listed(replay, rows)
    ensures Listed(replay, rows + [row])
  {
    hide Ids;
    AppendIds(rows, row);
  }

  lemma RecordKeepsKnown(h: History, rows: seq<Entry>, command: Command, deliveries: seq<Delivery>)
    requires Known(h, rows) && command.id !in h.commands
    requires deliveries == [Delivery(Failed(false), AtSubmit)]
    ensures Known(h.(commands := h.commands[command.id := command], results := h.results[command.id := deliveries]),
                  rows)
  {
    var h' := h.(commands := h.commands[command.id := command], results := h.results[command.id := deliveries]);
    forall i | 0 <= i < |rows|
      ensures Waits(h', rows[i])
    {
      assert Waits(h, rows[i]);
    }
    forall id | id in h'.commands && id !in Ids(rows)
      ensures Answered(h', id)
    {
      if id != command.id { assert Answered(h, id); }
    }
  }

  lemma AdmitKeepsKnown(h: History, rows: seq<Entry>, command: Command, tid: nat)
    requires Known(h, rows) && command.id !in h.commands
    requires command.generation != 0 ==> command.control
    ensures Known(h.(commands := h.commands[command.id := command], results := h.results[command.id := []]),
                  rows + [Row(command, tid)])
  {
    hide Ids;
    var row := Row(command, tid);
    var h' := h.(commands := h.commands[command.id := command], results := h.results[command.id := []]);
    var rows' := rows + [row];
    AppendIds(rows, row);
    forall i | 0 <= i < |rows'|
      ensures Waits(h', rows'[i])
    {
      if i < |rows| { assert Waits(h, rows[i]); }
    }
    forall id | id in h'.commands && id !in Ids(rows')
      ensures Answered(h', id)
    {
      assert Answered(h, id);
    }
  }

  lemma AppendKeepsNumbers(rows: seq<Entry>, row: Entry, written: seq<Write>, ceiling: nat)
    requires row.sequence == 0 && 1 <= ceiling
    ensures Numbered(rows, ceiling) ==> Numbered(rows + [row], ceiling)
    ensures Ahead(written, rows, ceiling) ==> Ahead(written, rows + [row], ceiling)
  {
  }

  lemma AppendKeepsBounds(s: State, command: Command, tid: nat)
    requires RowsBounded(s.pending, s.config) && !Saturated(s, command)
    ensures RowsBounded(s.pending + [Row(command, tid)], s.config)
  {
    hide SumOf;
    var row := Row(command, tid);
    SumAppend(s.pending, row, ControlRow);
    SumAppend(s.pending, row, ControlBytes);
    SumAppend(s.pending, row, ApplicationBytes);
    SumAppend(s.pending, row, InFlightRow);
  }

  /** Who is admitted now comes after everyone before. */
  lemma AppendKeepsTurn(admissions: map<RequestId, nat>, admitted: nat, commands: map<RequestId, Command>,
                        rows: seq<Entry>,
                        written: seq<Write>, row: Entry)
    requires InTurn(admissions, rows, written) && Admissible(admissions, admitted, commands) && row.id !in commands
    ensures InTurn(admissions[row.id := admitted], rows + [row], written)
  {
    hide FirstWrite;
    var next, rows' := admissions[row.id := admitted], rows + [row];
    assert forall id :: id in admissions ==> id in next && next[id] == admissions[id] && next[id] < admitted;
    assert forall i :: 0 <= i < |rows| ==> rows'[i] == rows[i];
    assert forall i :: 0 <= i < |rows| ==> Turn(next, rows[i].id) == Turn(admissions, rows[i].id);
    assert forall k :: 0 <= k < |written| ==> Turn(next, written[k].id) == Turn(admissions, written[k].id);
    assert Turn(next, rows'[|rows|].id) == admitted;
  }

  lemma AdmissibleGrows(admissions: map<RequestId, nat>, admitted: nat, commands: map<RequestId, Command>,
                        command: Command)
    requires Admissible(admissions, admitted, commands)
    ensures Admissible(admissions[command.id := admitted], admitted + 1, commands[command.id := command])
    ensures Admissible(admissions, admitted, commands[command.id := command])
  {
  }

  lemma NewIsUnlisted(h: History, rows: seq<Entry>, id: RequestId)
    requires Known(h, rows) && id !in h.commands
    ensures id !in Ids(rows)
  {
    hide Ids, Known;
    if id in Ids(rows) { WaitsAt(h, rows, id); }
  }

  lemma AdmitKeepsRows(s: State, command: Command, tid: nat)
    requires Shaped(s.pending) && Listed(s.replay, s.pending) && RowsBounded(s.pending, s.config)
             && !Saturated(s, command)
    requires command.id !in Ids(s.pending) && tid !in Tids(s.pending) && Ceiling(s) >= 1
    ensures var t := Admit(Record(s, command, []), command, tid);
      && Shaped(t.pending) && Listed(t.replay, t.pending) && RowsBounded(t.pending, t.config)
      && (Numbered(s.pending, Ceiling(s)) ==> Numbered(t.pending, Ceiling(t)))
      && (Ahead(s.written, s.pending, Ceiling(s)) ==> Ahead(t.written, t.pending, Ceiling(t)))
  {
    hide Shaped, Listed, Numbered, Ahead, RowsBounded, Saturated, Ids, Tids;
    var row := Row(command, tid);
    AppendKeepsShape(s.pending, row);
    AppendKeepsListed(s.replay, s.pending, row);
    AppendKeepsNumbers(s.pending, row, s.written, Ceiling(s));
    AppendKeepsBounds(s, command, tid);
  }

  lemma AdmitKeepsTurns(s: State, command: Command, tid: nat)
    requires InTurn(s.admissions, s.pending, s.written) && Admissible(s.admissions, s.admitted, s.commands)
    requires command.id !in s.commands
    ensures var t := Admit(Record(s, command, []), command, tid);
      InTurn(t.admissions, t.pending, t.written) && Admissible(t.admissions, t.admitted, t.commands)
  {
    hide InTurn, Admissible;
    AppendKeepsTurn(s.admissions, s.admitted, s.commands, s.pending, s.written, Row(command, tid));
    AdmissibleGrows(s.admissions, s.admitted, s.commands, command);
  }

  lemma AdmitKeeps(s: State, command: Command, tid: nat)
    requires Invariant(s) && command.id !in s.commands && !Saturated(s, command)
    requires command.generation != 0 ==> command.control
    requires tid !in Tids(s.pending)
    ensures Invariant(Admit(Record(s, command, []), command, tid))
  {
    hide Shaped, Listed, Known, Numbered, Ordered, Ahead, RowsBounded, InTurn, Admissible, Saturated, Ids, Tids;
    NewIsUnlisted(HistoryOf(s), s.pending, command.id);
    AdmitKeepsRows(s, command, tid);
    AdmitKeepsKnown(HistoryOf(s), s.pending, command, tid);
    AdmitKeepsTurns(s, command, tid);
  }

  lemma RefuseKeeps(s: State, command: Command)
    requires Invariant(s) && command.id !in s.commands
    ensures Invariant(Record(s, command, [Delivery(Failed(false), AtSubmit)]))
  {
    hide Shaped, Listed, Known, Numbered, Ordered, Ahead, RowsBounded, InTurn, Admissible;
    RecordKeepsKnown(HistoryOf(s), s.pending, command, [Delivery(Failed(false), AtSubmit)]);
    AdmissibleGrows(s.admissions, s.admitted, s.commands, command);
  }

  /** A terminal failure leaves the list of commands as it is. */
  lemma FailTerminalCommands(s: State)
    ensures FailTerminal(s).commands == s.commands
  {
    hide Chosen, Drop, DropIds;
  }

  lemma TidsKeep(s: State, nextTid: nat, tidExhausted: bool)
    requires Invariant(s) && nextTid <= MAX_UINT64
    ensures Invariant(s.(nextTid := nextTid, tidExhausted := tidExhausted))
  {
    hide Shaped, Listed, Known, Numbered, Ordered, Ahead, RowsBounded, InTurn, Admissible;
  }

  lemma SubmitUnnumberedKeeps(s: State, command: Command)
    requires Invariant(s) && command.id !in s.commands && s.nextTid <= MAX_UINT64
    requires command.generation != 0 ==> command.control
    requires !Refused(s, command, false) && command.tid == 0
    ensures Invariant(Submit(s, command, false))
  {
    hide Invariant, FailTerminal, Saturated, Admit, Record, Tids, TakeTid;
    var taken := TakeTid(Tids(s.pending), s.nextTid, s.tidExhausted);
    var numbered := s.(nextTid := taken.next, tidExhausted := taken.exhausted);
    TidsKeep(s, taken.next, taken.exhausted);
    if taken.tid.None? {
      FailTerminalKeeps(numbered);
      FailTerminalCommands(numbered);
      RefuseKeeps(FailTerminal(numbered), command);
    } else {
      SaturatedAlike(s, numbered, command);
      AdmitKeeps(numbered, command, taken.tid.value);
    }
  }

  lemma SaturatedAlike(s: State, t: State, command: Command)
    requires s.pending == t.pending && s.config == t.config
    ensures Saturated(s, command) == Saturated(t, command)
  {
  }

  lemma SubmitKeeps(s: State, command: Command, cancelled: bool)
    requires Invariant(s) && command.id !in s.commands
    requires command.generation != 0 ==> command.control
    ensures Invariant(Submit(s, command, cancelled))
  {
    assert s.nextTid <= MAX_UINT64;
    hide Invariant, FailTerminal, Saturated, Admit, Record, Tids, TakeTid;
    if Refused(s, command, cancelled) {
      RefuseKeeps(s, command);
    } else if command.tid != 0 {
      AdmitKeeps(s, command, command.tid);
    } else {
      SubmitUnnumberedKeeps(s, command);
    }
  }

  /** One row settled with a truthful result. */
  lemma RowIsFair(h: History, rows: seq<Entry>, index: nat, delivery: Delivery)
    requires Known(h, rows) && index < |rows|
    requires delivery.outcome.Failed? ==>
      && (delivery.outcome.unknown ==> rows[index].mayHaveExecuted && delivery.site != AtRedispatch)
      && (!delivery.outcome.unknown && rows[index].mayHaveExecuted && !rows[index].control ==>
          delivery.site == AtRedispatch)
    ensures Fair(h, rows, map[rows[index].id := delivery])
  {
    assert Waits(h, rows[index]);
    assert rows[index].id in Ids(rows);
  }

  lemma SettleRowKeeps(s: State, index: nat, delivery: Delivery)
    requires Invariant(s) && index < |s.pending|
    requires delivery.outcome.Failed? ==>
      && (delivery.outcome.unknown ==> s.pending[index].mayHaveExecuted && delivery.site != AtRedispatch)
      && (!delivery.outcome.unknown && s.pending[index].mayHaveExecuted && !s.pending[index].control ==>
            delivery.site == AtRedispatch)
    ensures Invariant(Settle(s, map[s.pending[index].id := delivery]))
  {
    hide Shaped, Listed, Known, Numbered, Ordered, Ahead, RowsBounded, InTurn, Admissible, Fair, Settle;
    RowIsFair(HistoryOf(s), s.pending, index, delivery);
    SettleKeepsInvariant(s, map[s.pending[index].id := delivery]);
  }

  lemma CancelKeeps(s: State, id: RequestId)
    requires Invariant(s)
    ensures Invariant(Cancel(s, id))
  {
    hide Invariant, Settle;
    var index := FindId(s.pending, id);
    if index < |s.pending| {
      SettleRowKeeps(s, index, Delivery(Failed(s.pending[index].mayHaveExecuted), AtCancel));
    }
  }

  // ---------------------------------------------------------------- dispatch

  lemma {:induction false} LeastReplayIsLeast(rows: seq<Entry>, from: nat, best: nat)
    requires from <= |rows| && best <= |rows|
    requires best < |rows| ==> best < from && UnsentReplay(rows[best])
    requires forall i :: 0 <= i < from && UnsentReplay(rows[i]) ==>
               best < |rows| && rows[best].sequence <= rows[i].sequence
    ensures var index := LeastReplay(rows, from, best);
      forall i :: 0 <= i < |rows| && UnsentReplay(rows[i]) ==>
          index < |rows| && rows[index].sequence <= rows[i].sequence
    decreases |rows| - from
  {
    if from < |rows| {
      if UnsentReplay(rows[from]) && (best == |rows| || rows[from].sequence < rows[best].sequence) {
        LeastReplayIsLeast(rows, from + 1, from);
      } else {
        LeastReplayIsLeast(rows, from + 1, best);
      }
    }
  }

  lemma {:induction false} NoControls(rows: seq<Entry>)
    requires SumOf(rows, ControlRow) == 0
    ensures forall i :: 0 <= i < |rows| ==> !rows[i].control
  {
    if rows != [] { NoControls(rows[..|rows| - 1]); }
  }

  /** A row may be written next: it is the least replay, or no replay is left and,
      in its lane, every earlier row is numbered. */
  ghost predicate Due(rows: seq<Entry>, index: nat)
    requires index < |rows|
  {
    && !rows[index].sent
    && (rows[index].sequence != 0 ==>
          forall i :: 0 <= i < |rows| && UnsentReplay(rows[i]) ==> rows[index].sequence <= rows[i].sequence)
    && (rows[index].sequence == 0 ==> forall i :: 0 <= i < |rows| ==> !UnsentReplay(rows[i]))
    && (rows[index].sequence == 0 && !rows[index].control ==>
          forall i :: 0 <= i < index && !rows[i].control ==> rows[i].sequence != 0)
  }

  lemma NextWriteIsDue(h: History, rows: seq<Entry>)
    requires Shaped(rows) && Known(h, rows)
    ensures NextWrite(rows) < |rows| ==> Due(rows, NextWrite(rows))
  {
    var index := NextWrite(rows);
    assert forall i :: 0 <= i < |rows| ==> Waits(h, rows[i]);
    if index < |rows| {
      if SumOf(rows, ControlRow) == 0 {
        NoControls(rows);
        forall i | 0 <= i < |rows| && UnsentReplay(rows[i])
          ensures rows[index].sequence != 0 && rows[index].sequence <= rows[i].sequence
        {
          if i != index { assert index < i && SameLane(rows[index], rows[i]); }
        }
      } else {
        LeastReplayIsLeast(rows, 0, |rows|);
      }
    }
  }

  lemma {:induction false} SumUpdate(rows: seq<Entry>, index: nat, row: Entry, weight: Entry -> nat)
    requires index < |rows|
    ensures SumOf(rows[index := row], weight) == SumOf(rows, weight) - weight(rows[index]) + weight(row)
  {
    var rows' := rows[index := row];
    if index < |rows| - 1 {
      SumUpdate(rows[..|rows| - 1], index, row, weight);
      assert rows'[..|rows| - 1] == rows[..|rows| - 1][index := row];
    } else {
      assert rows'[..|rows| - 1] == rows[..|rows| - 1];
    }
  }

  function WrittenRow(row: Entry, sequence: nat): (row': Entry) {
    row.(sequence := sequence, sent := true, mayHaveExecuted := true)
  }

  function WriteOf(row: Entry, sequence: nat): (write: Write) {
    Write(row.id, sequence, row.sequence != 0, row.control)
  }

  /** Either a replay under its own sequence, or an unnumbered row under a sequence above all others. */
  ghost predicate Numbers(rows: seq<Entry>, index: nat, sequence: nat)
    requires index < |rows|
  {
    && sequence != 0
    && (rows[index].sequence != 0 ==> sequence == rows[index].sequence)
    && (rows[index].sequence == 0 ==> forall i :: 0 <= i < |rows| ==> rows[i].sequence < sequence)
  }

  lemma WriteKeepsShape(rows: seq<Entry>, index: nat, sequence: nat)
    requires Shaped(rows) && index < |rows| && Due(rows, index) && Numbers(rows, index, sequence)
    ensures Shaped(rows[index := WrittenRow(rows[index], sequence)])
    ensures Ids(rows[index := WrittenRow(rows[index], sequence)]) == Ids(rows)
  {
    var rows' := rows[index := WrittenRow(rows[index], sequence)];
    forall i, j | 0 <= i < j < |rows|
      ensures rows'[i].id != rows'[j].id && rows'[i].tid != rows'[j].tid && SameLane(rows'[i], rows'[j])
    {
      assert SameLane(rows[i], rows[j]);
    }
    forall id | id in Ids(rows)
      ensures id in Ids(rows')
    {
      var k :| 0 <= k < |rows| && rows[k].id == id;
      assert rows'[k].id == id;
    }
  }

  lemma WriteKeepsKnown(h: History, rows: seq<Entry>, index: nat, sequence: nat)
    requires Known(h, rows) && Shaped(rows) && index < |rows| && Numbers(rows, index, sequence)
    requires Ids(rows[index := WrittenRow(rows[index], sequence)]) == Ids(rows)
    ensures Known(h.(dispatched := h.dispatched + {rows[index].id}), rows[index := WrittenRow(rows[index], sequence)])
  {
    var h' := h.(dispatched := h.dispatched + {rows[index].id});
    var rows' := rows[index := WrittenRow(rows[index], sequence)];
    assert Waits(h, rows[index]);
    forall i | 0 <= i < |rows'|
      ensures Waits(h', rows'[i])
    {
      assert Waits(h, rows[i]);
    }
    forall id | id in h'.commands && id !in Ids(rows')
      ensures Answered(h', id)
    {
      assert Answered(h, id);
      assert rows[index].id in Ids(rows);
    }
  }

  lemma WriteKeepsOrder(written: seq<Write>, rows: seq<Entry>, index: nat, sequence: nat, ceiling: nat)
    requires Ordered(written) && Ahead(written, rows, ceiling)
    requires index < |rows| && Due(rows, index) && Numbers(rows, index, sequence)
    requires rows[index].sequence == 0 ==> LastWritten(written) < sequence
    ensures Ordered(written + [WriteOf(rows[index], sequence)])
  {
    assert LastWritten(written) < sequence;
  }

  lemma WriteKeepsAhead(written: seq<Write>, rows: seq<Entry>, index: nat, sequence: nat, ceiling: nat)
    requires Shaped(rows) && index < |rows| && Due(rows, index) && Numbers(rows, index, sequence)
    requires sequence < ceiling
    ensures Ahead(written + [WriteOf(rows[index], sequence)],
                  rows[index := WrittenRow(rows[index], sequence)], ceiling)
  {
    var rows' := rows[index := WrittenRow(rows[index], sequence)];
    forall i | 0 <= i < |rows'| && UnsentReplay(rows'[i])
      ensures rows[index].sequence != 0 && sequence < rows'[i].sequence
    {
      assert UnsentReplay(rows[i]);
      if i < index { assert SameLane(rows[i], rows[index]); } else { assert SameLane(rows[index], rows[i]); }
    }
  }

  lemma WriteKeepsBounds(rows: seq<Entry>, index: nat, sequence: nat, config: Config)
    requires RowsBounded(rows, config) && index < |rows| && Due(rows, index)
    requires rows[index].control || SumOf(rows, InFlightRow) < config.maxInFlight
    ensures RowsBounded(rows[index := WrittenRow(rows[index], sequence)], config)
  {
    var row := WrittenRow(rows[index], sequence);
    SumUpdate(rows, index, row, ControlRow);
    SumUpdate(rows, index, row, ControlBytes);
    SumUpdate(rows, index, row, ApplicationBytes);
    SumUpdate(rows, index, row, InFlightRow);
  }

  lemma ReplayKeepsListed(replay: seq<RequestId>, rows: seq<Entry>, id: RequestId)
    requires Listed(replay, rows) && id in Ids(rows)
    ensures Listed(if id in replay then replay else replay + [id], rows)
  {
  }

  lemma WriteKeepsNumbered(rows: seq<Entry>, index: nat, sequence: nat, ceiling: nat, higher: nat)
    requires Numbered(rows, ceiling) && ceiling <= higher <= MAX_UINT64 + 1
    requires index < |rows| && sequence < higher
    ensures Numbered(rows[index := WrittenRow(rows[index], sequence)], higher)
  {
  }

  /** The application request that is due is the first one not yet written, so its turn comes before
      that of every other one, and after that of every one written. */
  lemma WriteKeepsTurn(admissions: map<RequestId, nat>, rows: seq<Entry>, written: seq<Write>, index: nat,
                       sequence: nat)
    requires InTurn(admissions, rows, written) && index < |rows| && Due(rows, index) && Numbers(rows, index, sequence)
    ensures InTurn(admissions, rows[index := WrittenRow(rows[index], sequence)],
                   written + [WriteOf(rows[index], sequence)])
  {
    var rows', written' := rows[index := WrittenRow(rows[index], sequence)], written + [WriteOf(rows[index], sequence)];
    assert forall i :: 0 <= i < |rows| ==> rows'[i].id == rows[i].id;
    assert forall k :: 0 <= k < |written| ==> written'[k] == written[k];
    forall k, l | 0 <= k < l < |written'| && FirstWrite(written'[k]) && FirstWrite(written'[l])
      ensures Turn(admissions, written'[k].id) < Turn(admissions, written'[l].id)
    {
      if l == |written| { assert UnnumberedApplication(rows[index]); }
    }
    forall k, i | 0 <= k < |written'| && 0 <= i < |rows'| && FirstWrite(written'[k]) && UnnumberedApplication(rows'[i])
      ensures Turn(admissions, written'[k].id) < Turn(admissions, rows'[i].id)
    {
      assert i != index && UnnumberedApplication(rows[i]);
      if k == |written| { assert index < i; }
    }
  }

  lemma HandToWriterKeeps(s: State, index: nat, sequence: nat, ceiling: nat)
    requires Shaped(s.pending) && Listed(s.replay, s.pending) && Known(HistoryOf(s), s.pending)
    requires Ordered(s.written) && Ahead(s.written, s.pending, ceiling) && RowsBounded(s.pending, s.config)
    requires index < |s.pending| && Due(s.pending, index) && Numbers(s.pending, index, sequence)
    requires s.pending[index].sequence == 0 ==> LastWritten(s.written) < sequence
    requires s.pending[index].control || InFlight(s) < s.config.maxInFlight
    requires Numbered(s.pending, ceiling) && ceiling <= Ceiling(s) <= MAX_UINT64 + 1 && sequence < Ceiling(s)
    requires !s.sequenceExhausted ==> s.nextOutbound <= MAX_UINT64
    requires InTurn(s.admissions, s.pending, s.written) && Admissible(s.admissions, s.admitted, s.commands)
    requires s.nextTid <= MAX_UINT64 && s.phase == Ready && QueueBounded(s) && (s.connectPending ==> !s.linked)
    ensures Invariant(HandToWriter(s, index, sequence))
  {
    hide Shaped, Known, Numbered, Ordered, Ahead, RowsBounded, InTurn, Admissible, Due, Numbers;
    WriteKeepsShape(s.pending, index, sequence);
    WriteKeepsKnown(HistoryOf(s), s.pending, index, sequence);
    WriteKeepsOrder(s.written, s.pending, index, sequence, ceiling);
    WriteKeepsAhead(s.written, s.pending, index, sequence, Ceiling(s));
    WriteKeepsBounds(s.pending, index, sequence, s.config);
    WriteKeepsTurn(s.admissions, s.pending, s.written, index, sequence);
    WriteKeepsNumbered(s.pending, index, sequence, ceiling, Ceiling(s));
    assert s.pending[index].id in Ids(s.pending);
    var rows := s.pending[index := WrittenRow(s.pending[index], sequence)];
    assert Listed(s.replay, rows);
    ReplayKeepsListed(s.replay, rows, s.pending[index].id);
  }

  lemma WriteNewRowKeeps(s: State, index: nat)
    requires Invariant(s) && s.linked && s.phase == Ready && !s.sequenceExhausted
    requires index < |s.pending| && Due(s.pending, index) && s.pending[index].sequence == 0
    requires s.pending[index].control || InFlight(s) < s.config.maxInFlight
    ensures Invariant(HandToWriter(AllocateSequence(s), index, FreshSequence(s)))
  {
    hide Shaped, Listed, Known, Ordered, RowsBounded, InTurn, Admissible, Due, HandToWriter;
    var sequence := FreshSequence(s);
    assert sequence == Ceiling(s) == s.nextOutbound;
    assert Numbers(s.pending, index, sequence);
    var numbered := AllocateSequence(s);
    assert Ceiling(numbered) == sequence + 1;
    assert HistoryOf(numbered) == HistoryOf(s);
    HandToWriterKeeps(numbered, index, sequence, sequence);
  }

  lemma WriteRowKeeps(s: State, index: nat)
    requires Invariant(s) && s.linked && s.phase == Ready
    requires index < |s.pending| && Due(s.pending, index)
    requires s.pending[index].control || InFlight(s) < s.config.maxInFlight
    ensures Invariant(WriteRow(s, index))
  {
    hide Shaped, Listed, Known, Ordered, Ahead, RowsBounded, InTurn, Admissible, Due, HandToWriter, AllocateSequence,
        FailTerminal;
    if s.pending[index].sequence != 0 {
      HandToWriterKeeps(s, index, s.pending[index].sequence, Ceiling(s));
    } else if s.sequenceExhausted {
      FailTerminalKeeps(s);
    } else {
      WriteNewRowKeeps(s, index);
    }
  }

  lemma DispatchRowKeeps(s: State, index: nat, cancelled: bool)
    requires Invariant(s) && s.linked && s.phase == Ready
    requires index < |s.pending| && Due(s.pending, index)
    ensures Invariant(DispatchRow(s, index, cancelled))
  {
    hide Shaped, Listed, Numbered, Ordered, Ahead, RowsBounded, InTurn, Admissible, Due, Settle, Cancel, WriteRow;
    var row := s.pending[index];
    assert Waits(HistoryOf(s), row);
    if row.generation != 0 && row.generation != s.controlGeneration {
      SettleRowKeeps(s, index, Delivery(Failed(false), AtInvalidate));
    } else if !row.control && InFlight(s) >= s.config.maxInFlight {
    } else if cancelled && row.control {
      CancelKeeps(s, row.id);
    } else if cancelled {
      SettleRowKeeps(s, index, Delivery(Failed(false), AtRedispatch));
    } else {
      WriteRowKeeps(s, index);
    }
  }

  lemma DispatchReadyKeeps(s: State, cancelled: bool)
    requires Invariant(s) && s.linked && s.phase == Ready
    ensures Invariant(DispatchReady(s, cancelled))
  {
    hide Shaped, Listed, Known, Numbered, Ordered, Ahead, RowsBounded, InTurn, Admissible, Due, NextWrite, DispatchRow,
        HandleFault;
    var index := NextWrite(s.pending);
    if s.renewalPending && (index == |s.pending| || !s.pending[index].control) {
      if InFlight(s) == 0 { HandleFaultKeeps(s.(renewalPending := false)); }
    } else if index < |s.pending| {
      NextWriteIsDue(HistoryOf(s), s.pending);
      DispatchRowKeeps(s, index, cancelled);
    }
  }

  /** Only a fault takes the link away, and it also leaves the Ready phase. */
  lemma FlushKeepsLink(s: State)
    requires s.linked
    ensures FlushAcknowledgment(s).linked || FlushAcknowledgment(s).phase != Ready
  {
    hide Drop, DropIds, Delivered, Chosen, Unsend, Trimmed;
  }

  lemma TakeFrameKeeps(s: State)
    requires Invariant(s) && s.controlQueue != []
    ensures Invariant(s.(controlQueue := s.controlQueue[1..], writeBusy := true))
  {
    hide Shaped, Listed, Known, Numbered, Ordered, Ahead, RowsBounded, InTurn, Admissible;
  }

  lemma DispatchKeeps(s: State, cancelled: bool)
    requires Invariant(s)
    ensures Invariant(Dispatch(s, cancelled))
  {
    hide Invariant, FlushAcknowledgment, DispatchNext;
    if !(s.writeBusy || !s.linked || s.phase in {Disconnected, Waiting, Stopped}) {
      FlushKeeps(s);
      FlushKeepsLink(s);
      DispatchNextKeeps(if s.renewalPending && s.pendingAck != 0 && InFlight(s) == 0 then FlushAcknowledgment(s)
                        else s, cancelled);
    }
  }

  lemma DispatchNextKeeps(s: State, cancelled: bool)
    requires Invariant(s) && (s.linked || s.phase != Ready)
    ensures Invariant(DispatchNext(s, cancelled))
  {
    hide Invariant, DispatchReady;
    if s.controlQueue != [] {
      TakeFrameKeeps(s);
    } else if s.phase == Ready {
      DispatchReadyKeeps(s, cancelled);
    }
  }

  // ---------------------------------------------------------------- frames in

  /** The handshake counters, the peer's identity and the inbound position play no part. */
  lemma HandshakeKeeps(s: State, t: State)
    requires Invariant(s)
    requires t == s.(lastInbound := t.lastInbound, serverCookie := t.serverCookie, lossy := t.lossy,
                     connectSequence := t.connectSequence, connectedOnce := t.connectedOnce,
                     reconnectAttempts := t.reconnectAttempts, transitions := t.transitions,
                     terminal := t.terminal, writeBusy := t.writeBusy)
    ensures Invariant(t)
  {
    hide Shaped, Listed, Known, Numbered, Ordered, Ahead, RowsBounded, InTurn, Admissible;
  }

  lemma ReplyKeeps(s: State, index: nat, sequence: nat)
    requires Invariant(s) && index < |s.pending|
    ensures Invariant(QueueAcknowledgment(Settle(s, map[s.pending[index].id := Delivery(Replied, AtReply)]), sequence))
  {
    hide Invariant, Settle, QueueAcknowledgment;
    SettleRowKeeps(s, index, Delivery(Replied, AtReply));
    QueueAcknowledgmentKeeps(Settle(s, map[s.pending[index].id := Delivery(Replied, AtReply)]), sequence);
  }

  lemma UnsolicitedKeeps(s: State, sequence: nat)
    requires Invariant(s)
    ensures Invariant(QueueAcknowledgment(s, sequence)) && Invariant(FailTerminal(QueueAcknowledgment(s, sequence)))
  {
    hide Invariant, QueueAcknowledgment, FailTerminal;
    QueueAcknowledgmentKeeps(s, sequence);
    FailTerminalKeeps(QueueAcknowledgment(s, sequence));
  }

  lemma AcceptMessageKeeps(s: State, message: Inbound, queueFull: bool)
    requires Invariant(s)
    ensures Invariant(AcceptMessage(s, message, queueFull))
  {
    hide Invariant, QueueAcknowledgment, FailTerminal, TrimReplay, Settle, FindTid;
    var advanced := s.(lastInbound := message.sequence);
    HandshakeKeeps(s, advanced);
    TrimReplayKeeps(advanced, message.acknowledged);
    var trimmed := TrimReplay(advanced, message.acknowledged);
    var index := FindTid(trimmed.pending, message.tid);
    if index < |trimmed.pending| && !trimmed.pending[index].control {
      ReplyKeeps(trimmed, index, message.sequence);
    } else {
      UnsolicitedKeeps(trimmed, message.sequence);
    }
  }

  lemma HandleMessageKeeps(s: State, message: Inbound, queueFull: bool)
    requires Invariant(s)
    ensures Invariant(HandleMessage(s, message, queueFull))
  {
    hide Invariant, HandleFault, AcceptMessage;
    if s.phase != Ready || BadAcknowledgment(s, message.acknowledged) {
      HandleFaultKeeps(s);
    } else if message.sequence > s.lastInbound {
      AcceptMessageKeeps(s, message, queueFull);
    }
  }

  /** Before its handshake is over, a transport carries no message. */
  lemma ConnectingKeeps(s: State)
    requires Invariant(s) && (s.linked ==> s.written == [])
    ensures Invariant(s.(phase := Connecting))
  {
    hide Shaped, Listed, Known, Numbered, Ordered, Ahead, RowsBounded, InTurn, Admissible;
  }

  lemma NotYetWritten(s: State)
    requires Invariant(s) && s.phase == Reconnecting
    ensures s.linked ==> s.written == []
  {
    hide Shaped, Listed, Known, Numbered, Ordered, Ahead, RowsBounded, InTurn, Admissible, QueueBounded;
  }

  lemma RestartKeeps(s: State)
    requires Invariant(s) && s.phase == Reconnecting
    ensures var t := FailAll(s.(nextOutbound := 1, sequenceExhausted := false, nextTid := 1, tidExhausted := false));
      Invariant(t) && t.linked == s.linked && t.written == s.written
  {
    hide Shaped, Listed, Known, Numbered, Ordered, Ahead, RowsBounded, InTurn, Admissible, FailAll;
    FailAllRestores(s.(nextOutbound := 1, sequenceExhausted := false, nextTid := 1, tidExhausted := false));
  }

  lemma ResetRequestsKeeps(s: State, full: bool)
    requires Invariant(s) && s.phase == Reconnecting
    ensures var t := if full then
              FailAll(s.(nextOutbound := 1, sequenceExhausted := false, nextTid := 1, tidExhausted := false))
                     else PrepareReplay(s);
      Invariant(t.(phase := Connecting))
  {
    hide Invariant, FailAll, PrepareReplay;
    NotYetWritten(s);
    if full {
      RestartKeeps(s);
      ConnectingKeeps(FailAll(s.(nextOutbound := 1, sequenceExhausted := false, nextTid := 1, tidExhausted := false)));
    } else {
      PrepareConnectingKeeps(s);
    }
  }

  lemma PrepareConnectingKeeps(s: State)
    requires Invariant(s) && (s.linked ==> s.written == [])
    ensures Invariant(PrepareReplay(s).(phase := Connecting))
  {
    hide Invariant, PrepareReplay;
    PrepareReplayKeeps(s);
    ConnectingKeeps(PrepareReplay(s));
  }

  lemma ResumeKeeps(s: State)
    requires Invariant(s) && (s.linked ==> s.written == [])
    ensures Invariant(PrepareReplay(s).(reconnectAttempts := 0, phase := Ready))
  {
    hide Invariant, PrepareReplay;
    PrepareReplayKeeps(s);
    HandshakeKeeps(PrepareReplay(s), PrepareReplay(s).(reconnectAttempts := 0));
    ReadyKeeps(PrepareReplay(s).(reconnectAttempts := 0));
  }

  lemma CutKeeps(s: State)
    requires Invariant(s)
    ensures Invariant(InvalidateControls(s.(pendingAck := 0)).(serverCookie := 0, lossy := false, connectSequence := 0,
                                                               lastInbound := 0))
    ensures InvalidateControls(s.(pendingAck := 0)).phase == s.phase
  {
    hide Invariant, Drop, DropIds, Delivered, Chosen, Unsend, Trimmed;
    var cleared := s.(pendingAck := 0);
    AckKeeps(s, 0);
    InvalidateKeeps(cleared);
    HandshakeKeeps(InvalidateControls(cleared),
                   InvalidateControls(cleared).(serverCookie := 0, lossy := false, connectSequence := 0,
                                                lastInbound := 0));
  }

  lemma HandleResetKeeps(s: State, full: bool, cookieOk: bool)
    requires Invariant(s) && s.phase == Reconnecting
    ensures Invariant(HandleReset(s, full, cookieOk))
  {
    hide Invariant, InvalidateControls, FailTerminal, FailAll, PrepareReplay, QueueControl;
    CutKeeps(s);
    hide InvalidateControls, FailTerminal, FailAll, PrepareReplay, QueueControl;
    var cut := InvalidateControls(s.(pendingAck := 0)).(serverCookie := 0, lossy := false, connectSequence := 0,
                                                        lastInbound := 0);
    if full && !cookieOk {
      FailTerminalKeeps(cut);
    } else {
      ResetRequestsKeeps(cut, full);
      var reset :=
        if full then FailAll(cut.(nextOutbound := 1, sequenceExhausted := false, nextTid := 1, tidExhausted := false))
        else PrepareReplay(cut);
      QueueControlKeeps(reset.(phase := Connecting), ClientIdentFrame);
    }
  }

  lemma ReadyKeeps(s: State)
    requires Invariant(s)
    ensures Invariant(s.(phase := Ready))
  {
    hide Shaped, Listed, Known, Numbered, Ordered, Ahead, RowsBounded, InTurn, Admissible;
  }

  lemma IdentifiedKeeps(s: State, ident: Control)
    requires Invariant(s) && ident.ServerIdent?
    ensures Invariant(FailSentUnknown(s.(serverCookie := ident.cookie, lossy := ident.isLossy, reconnectAttempts := 0))
                      .(phase := Ready))
  {
    hide Invariant, FailSentUnknown;
    var known := s.(serverCookie := ident.cookie, lossy := ident.isLossy, reconnectAttempts := 0);
    HandshakeKeeps(s, known);
    FailSentKeeps(known);
    ReadyKeeps(FailSentUnknown(known));
  }

  lemma HandleServerIdentKeeps(s: State, ident: Control)
    requires Invariant(s) && ident.ServerIdent?
    ensures Invariant(HandleServerIdent(s, ident))
  {
    hide Invariant, FailSentUnknown, HandleFault, FailTerminal;
    var counted := s.(transitions := s.transitions + 1);
    HandshakeKeeps(s, counted);
    if s.phase != Connecting {
      HandleFaultKeeps(s);
    } else if counted.transitions > s.config.maxTransitions {
      HandleFaultKeeps(counted);
    } else if !ident.featuresOk {
      FailTerminalKeeps(counted);
    } else if !ident.endpointOk {
      HandleFaultKeeps(counted);
    } else {
      IdentifiedKeeps(counted, ident);
    }
  }

  lemma HandleReconnectOkKeeps(s: State, sequence: nat)
    requires Invariant(s) && s.phase == Reconnecting
    ensures Invariant(HandleReconnectOk(s, sequence))
  {
    hide Invariant, HandleFault, Trimmed, PrepareReplay;
    NotYetWritten(s);
    if BadAcknowledgment(s, sequence) {
      HandleFaultKeeps(s);
    } else {
      var trimmed := TrimReplay(s, sequence);
      TrimReplayKeeps(s, sequence);
      ResumeKeeps(trimmed);
    }
  }

  lemma RetryKeeps(s: State, connectSequence: nat)
    requires Invariant(s)
    ensures Invariant(SendReconnect(s.(connectSequence := connectSequence)))
  {
    hide Invariant, SendReconnect;
    HandshakeKeeps(s, s.(connectSequence := connectSequence));
    SendReconnectKeeps(s.(connectSequence := connectSequence));
  }

  lemma HandleTransitionKeeps(s: State, control: Control)
    requires control.SessionReset? || control.SessionRetry? || control.SessionRetryGlobal? || control.ReconnectOk?
    requires Invariant(s)
    ensures Invariant(HandleTransition(s, control))
  {
    hide Invariant, HandleFault, FailTerminal, HandleReset, SendReconnect, HandleReconnectOk;
    var counted := s.(transitions := s.transitions + 1);
    HandshakeKeeps(s, counted);
    var t := HandleTransition(s, control);
    if s.phase != Reconnecting {
      assert t == HandleFault(s);
      HandleFaultKeeps(s);
    } else if counted.transitions > s.config.maxTransitions {
      assert t == HandleFault(counted);
      HandleFaultKeeps(counted);
    } else {
      match control
      case SessionReset(full, cookieOk) =>
        assert t == HandleReset(counted, full, cookieOk);
        HandleResetKeeps(counted, full, cookieOk);
      case SessionRetry(sequence) =>
        if sequence >= MAX_UINT64 {
          assert t == FailTerminal(counted);
          FailTerminalKeeps(counted);
        } else {
          assert t == SendReconnect(counted.(connectSequence := sequence + 1));
          RetryKeeps(counted, sequence + 1);
        }
      case SessionRetryGlobal(globalOk) =>
        assert t == if globalOk then SendReconnect(counted) else FailTerminal(counted);
        if globalOk { SendReconnectKeeps(counted); } else { FailTerminalKeeps(counted); }
      case ReconnectOk(sequence) =>
        assert t == HandleReconnectOk(counted, sequence);
        HandleReconnectOkKeeps(counted, sequence);
    }
  }

  lemma WaitingKeeps(s: State)
    requires Invariant(s) && (s.phase == Connecting || s.phase == Reconnecting)
    ensures Invariant(s.(transitions := s.transitions + 1, phase := Waiting))
  {
    hide Shaped, Listed, Known, Numbered, Ordered, Ahead, RowsBounded, InTurn, Admissible;
    HandshakeKeeps(s, s.(transitions := s.transitions + 1));
  }

  lemma HandleWaitKeeps(s: State)
    requires Invariant(s)
    ensures Invariant(HandleControl(s, Wait))
  {
    hide Invariant, HandleFault, HandleServerIdent, HandleTransition, FailTerminal, QueueControl;
    var t := HandleControl(s, Wait);
    if s.phase != Connecting && s.phase != Reconnecting {
      assert t == HandleFault(s);
      HandleFaultKeeps(s);
    } else {
      var waiting := s.(transitions := s.transitions + 1, phase := Waiting);
      assert t == HandleFault(waiting);
      WaitingKeeps(s);
      HandleFaultKeeps(waiting);
    }
  }

  lemma HandleControlKeeps(s: State, control: Control)
    requires Invariant(s)
    ensures Invariant(HandleControl(s, control))
  {
    hide Invariant, HandleFault, HandleServerIdent, HandleTransition, FailTerminal, QueueControl, TrimReplay;
    match control
    case Ack(sequence) =>
      if s.phase != Ready || BadAcknowledgment(s, sequence) { HandleFaultKeeps(s); }
          else { TrimReplayKeeps(s, sequence); }
    case Keepalive => if s.phase != Ready { HandleFaultKeeps(s); } else { QueueControlKeeps(s, KeepaliveAckFrame); }
    case KeepaliveAck => if s.phase != Ready { HandleFaultKeeps(s); }
    case Wait => HandleWaitKeeps(s);
    case ServerIdent(_, _, _, _) => HandleServerIdentKeeps(s, control);
    case MissingFeatures => FailTerminalKeeps(s);
    case Unexpected => HandleFaultKeeps(s);
    case _ => HandleTransitionKeeps(s, control);
  }

  // ---------------------------------------------------------------- transports

  lemma FreshTransport(admissions: map<RequestId, nat>, rows: seq<Entry>, written: seq<Write>)
    requires InTurn(admissions, rows, written)
    ensures InTurn(admissions, rows, [])
  {
  }

  lemma StartTransportKeeps(s: State, phase: Phase)
    requires Invariant(s) && !s.connectPending
    ensures Invariant(StartTransport(s, phase))
  {
    hide Shaped, Listed, Known, RowsBounded, InTurn, Admissible;
    assert Ahead([], s.pending, Ceiling(s));
    FreshTransport(s.admissions, s.pending, s.written);
  }

  lemma OpenTransportKeeps(s: State, cookieOk: bool)
    requires Invariant(s) && !s.connectPending
    ensures Invariant(OpenTransport(s, cookieOk))
  {
    hide FailTerminal, QueueControl, SendReconnect, Shaped, Listed, Known, Numbered, Ordered, Ahead, RowsBounded,
        InTurn, Admissible, StartTransport;
    if s.serverCookie != 0 {
      if s.connectSequence >= MAX_UINT64 {
        FailTerminalKeeps(s);
      } else {
        var next := s.(connectSequence := s.connectSequence + 1);
        HandshakeKeeps(s, next);
        StartTransportKeeps(next, Reconnecting);
        SendReconnectKeeps(StartTransport(next, Reconnecting));
      }
    } else if !cookieOk {
      FailTerminalKeeps(s);
    } else {
      var first := s.(connectSequence := 0);
      HandshakeKeeps(s, first);
      StartTransportKeeps(first, Connecting);
      QueueControlKeeps(StartTransport(first, Connecting), ClientIdentFrame);
    }
  }

  lemma AdoptTransportKeeps(s: State, connection: Connection)
    requires Invariant(s) && !s.connectPending && !s.linked && connection.Transport?
    ensures Invariant(OpenTransport(if connection.identityChanged then ResetForNewIdentity(s)
                                    else s, connection.cookieOk))
  {
    hide OpenTransport, ResetForNewIdentity;
    ResetIdentityKeeps(s);
    OpenTransportKeeps(if connection.identityChanged then ResetForNewIdentity(s) else s, connection.cookieOk);
  }

  lemma HandleConnectedKeeps(s: State, generation: nat, connection: Connection)
    requires Invariant(s)
    ensures Invariant(HandleConnected(s, generation, connection))
  {
    hide Shaped, Listed, Known, Numbered, Ordered, Ahead, RowsBounded, InTurn, Admissible, BeginReconnect,
        FailTerminal, OpenTransport, ResetForNewIdentity;
    if generation == s.generation && s.connectPending {
      var idle := s.(connectPending := false);
      if connection.NoTransport? {
        BeginReconnectKeeps(idle);
      } else {
        var open := idle.(terminal := false, transitions := 0);
        HandshakeKeeps(idle, open);
        if open.connectedOnce && !connection.globalOk {
          FailTerminalKeeps(open);
        } else {
          var known := open.(connectedOnce := true);
          HandshakeKeeps(open, known);
          if !connection.identityOk { FailTerminalKeeps(known); } else { AdoptTransportKeeps(known, connection); }
        }
      }
    }
  }

  lemma HandleWrittenKeeps(s: State, generation: nat, request: Option<RequestId>, failed: bool)
    requires Invariant(s)
    ensures Invariant(HandleWritten(s, generation, request, failed))
  {
    hide Shaped, Listed, Known, Numbered, Ordered, Ahead, RowsBounded, InTurn, Admissible, HandleFault, Settle;
    if generation == s.generation {
      var idle := s.(writeBusy := false);
      if failed {
        HandleFaultKeeps(idle);
      } else if request.Some? {
        var index := FindId(idle.pending, request.value);
        if index < |idle.pending| && idle.pending[index].oneWay {
          SettleRowKeeps(idle, index, Delivery(Sent, AtWritten));
        }
      }
    }
  }

  lemma StopKeeps(s: State)
    requires Invariant(s)
    ensures Invariant(Stop(s)) && Stop(s).pending == [] && Stop(s).commands == s.commands
  {
    hide Shaped, Listed, Known, Numbered, Ordered, RowsBounded, InTurn, Admissible, Drop, DropIds, Delivered, Chosen,
        Unsend, Trimmed;
    InvalidateKeeps(s);
    FailAllRestores(InvalidateControls(s).(phase := Stopped));
  }

  // ---------------------------------------------------------------- runs

  /** A command is a new object each time, and only control commands carry a generation. */
  ghost predicate Offered(s: State, event: Event) {
    event.SubmitEvent? ==>
      && event.command.id !in s.commands
      && (event.command.generation != 0 ==> event.command.control)
  }

  lemma ReadFrameKeeps(s: State, event: Event)
    requires event.MessageEvent? || event.ControlEvent? || event.ReadErrorEvent?
    requires Invariant(s)
    ensures Invariant(ReadFrame(s, event))
  {
    hide Invariant, HandleMessage, HandleControl, FailTerminal, HandleFault;
    match event
    case MessageEvent(_, message, queueFull) => HandleMessageKeeps(s, message, queueFull);
    case ControlEvent(_, control) => HandleControlKeeps(s, control);
    case ReadErrorEvent(_, budgetExceeded) => if budgetExceeded { FailTerminalKeeps(s); } else { HandleFaultKeeps(s); }
  }

  lemma StepKeeps(s: State, event: Event)
    requires Invariant(s) && Offered(s, event)
    ensures Invariant(Step(s, event))
  {
    hide Shaped, Listed, Known, Numbered, Ordered, Ahead, RowsBounded, InTurn, Admissible, Dispatch, Submit, Cancel,
        Stop, ReadFrame, HandleWritten, HandleFault, HandleConnected, FlushAcknowledgment;
    match event
    case DispatchEvent(cancelled) => DispatchKeeps(s, cancelled);
    case SubmitEvent(command, cancelled) => SubmitKeeps(s, command, cancelled);
    case CancelEvent(id) => CancelKeeps(s, id);
    case StopEvent => StopKeeps(s);
    case MessageEvent(_, _, _) => ReadFrameKeeps(s, event);
    case ControlEvent(_, _) => ReadFrameKeeps(s, event);
    case ReadErrorEvent(_, _) => ReadFrameKeeps(s, event);
    case WrittenEvent(generation, request, failed) => HandleWrittenKeeps(s, generation, request, failed);
    case FaultEvent(_) => HandleFaultKeeps(s);
    case RenewalEvent(_) =>
    case ConnectedEvent(generation, connection) => HandleConnectedKeeps(s, generation, connection);
    case AckTimerEvent => FlushKeeps(s);
  }

  lemma StartKeeps(config: Config, transport: bool, serverCookie: nat, connectSequence: nat)
    ensures Invariant(Start(config, transport, serverCookie, connectSequence))
  {
    var idle := Idle(config, transport, serverCookie, connectSequence);
    assert Invariant(idle);
    StartTransportKeeps(idle, Ready);
    BeginReconnectKeeps(idle);
  }

  /** A run: the owner's state before and after each event, from its start. */
  ghost predicate IsRun(states: seq<State>, events: seq<Event>) {
    && |states| == |events| + 1
    && (exists config, transport, cookie, sequence :: states[0] == Start(config, transport, cookie, sequence))
    && (forall i :: 0 <= i < |events| ==>
          states[i].nextTid <= MAX_UINT64 && Offered(states[i], events[i])
              && states[i + 1] == Step(states[i], events[i]))
  }

  lemma {:induction false} RunKeeps(states: seq<State>, events: seq<Event>, i: nat)
    requires IsRun(states, events) && i < |states|
    ensures Invariant(states[i])
  {
    hide Invariant, Step, Start;
    if i == 0 {
      var config, transport, cookie, sequence :| states[0] == Start(config, transport, cookie, sequence);
      StartKeeps(config, transport, cookie, sequence);
    } else {
      RunKeeps(states, events, i - 1);
      StepKeeps(states[i - 1], events[i - 1]);
    }
  }

  /** Main theorem: after any number of events, a command has exactly one result if it is no
      longer in the table and none while it is; none is left unanswered once the owner stopped. */
  lemma ExactlyOneResult(states: seq<State>, events: seq<Event>, i: nat, id: RequestId)
    requires IsRun(states, events) && i < |states| && id in states[i].commands
    ensures id in states[i].results
    ensures |states[i].results[id]| == if id in Ids(states[i].pending) then 0 else 1
  {
    hide IsRun, Shaped, Listed, Numbered, Ordered, Ahead, RowsBounded, InTurn, Admissible;
    RunKeeps(states, events, i);
    if id in Ids(states[i].pending) {
      var k :| 0 <= k < |states[i].pending| && states[i].pending[k].id == id;
      assert Waits(HistoryOf(states[i]), states[i].pending[k]);
    } else {
      assert Answered(HistoryOf(states[i]), id);
    }
  }

  /** Main theorem: the sequences written on one transport strictly increase, replays come before
      new messages, and application requests are written for the first time in the order in which
      they were admitted, whether they are still in the table or not. */
  lemma WritesAreOrdered(states: seq<State>, events: seq<Event>, i: nat)
    requires IsRun(states, events) && i < |states|
    ensures Ordered(states[i].written)
    ensures var written, admissions := states[i].written, states[i].admissions;
      forall k, l :: 0 <= k < l < |written| && FirstWrite(written[k]) && FirstWrite(written[l]) ==>
        && written[k].id in admissions && written[l].id in admissions
        && admissions[written[k].id] < admissions[written[l].id]
    ensures var rows := states[i].pending;
      forall a, b :: 0 <= a < b < |rows| && !rows[a].control && !rows[b].control && rows[b].sequence != 0 ==>
        0 < rows[a].sequence < rows[b].sequence
  {
    hide IsRun, Listed, Known, Numbered, Ahead, RowsBounded, Admissible, Ordered;
    RunKeeps(states, events, i);
    var rows := states[i].pending;
    assert forall a, b :: 0 <= a < b < |rows| ==> SameLane(rows[a], rows[b]);
  }

  /** Main theorem: every configured limit holds after every step. */
  lemma LimitsHold(states: seq<State>, events: seq<Event>, i: nat)
    requires IsRun(states, events) && i < |states|
    ensures RowsBounded(states[i].pending, states[i].config) && QueueBounded(states[i])
  {
    hide IsRun, Shaped, Listed, Known, Numbered, Ordered, Ahead;
    RunKeeps(states, events, i);
  }

  /** Stopping answers every command that was ever accepted. */
  lemma StopAnswersAll(states: seq<State>, events: seq<Event>, id: RequestId)
    requires IsRun(states, events) && id in states[|events|].commands
    ensures var stopped := Stop(states[|events|]);
      id in stopped.results && |stopped.results[id]| == 1
  {
    hide Step, Start, Shaped, Listed, Numbered, Ordered, Ahead, RowsBounded, InTurn, Admissible, Stop;
    RunKeeps(states, events, |events|);
    StopKeeps(states[|events|]);
    var stopped := Stop(states[|events|]);
    assert id !in Ids(stopped.pending);
    assert Answered(HistoryOf(stopped), id);
  }
}
