/** What becomes of each request in the table when a transport is lost, a session is reset or begins anew. */
module SessionFates {
  import opened Common
  import opened SessionState
  import opened SessionSteps
  import opened SessionInvariant
  import opened SessionRuns
  import R = SessionReplay
  import I = SessionInbound

  // ---------------------------------------------------------------- settling

  /** The rows that are not chosen stay as they are, the others leave. */
  lemma SiftedRows(rows: seq<Entry>, chosen: Entry -> bool, unknown: Entry -> bool, site: Site, k: nat)
    requires Shaped(rows) && k < |rows|
    ensures var row, ids := rows[k], Chosen(rows, chosen, unknown, site).Keys;
            && (row.id in ids <==> chosen(row)) && (row.id in Ids(Drop(rows, ids)) <==> !chosen(row))
            && (!chosen(row) ==> row in Drop(rows, ids))
  {
    hide Drop, Chosen, SameLane;
    var row, deliver := rows[k], Chosen(rows, chosen, unknown, site);
    DropKeepsIds(rows, deliver.Keys);
    assert row.id in Ids(rows);
    if chosen(row) {
      ChosenCovers(rows, chosen, unknown, site, k);
    } else {
      if row.id in deliver { ChosenKeys(rows, chosen, unknown, site, row.id); }
      var i := DropTarget(rows, deliver.Keys, k);
    }
  }

  lemma Sifted(s: State, chosen: Entry -> bool, unknown: Entry -> bool, site: Site, k: nat)
    requires Shaped(s.pending) && k < |s.pending|
    ensures var t, row := SettleWhere(s, chosen, unknown, site), s.pending[k];
            && Shaped(t.pending) && (row.id in Ids(t.pending) <==> !chosen(row)) && (!chosen(row) ==> row in t.pending)
            && (!chosen(row) ==> (row.id in t.replay <==> row.id in s.replay))
  {
    hide Drop, DropIds, Chosen, Delivered, Shaped, Ids;
    var ids := Chosen(s.pending, chosen, unknown, site).Keys;
    SiftedRows(s.pending, chosen, unknown, site, k);
    DropKeepsShape(s.pending, ids);
    R.DropIdsIn(s.replay, ids, s.pending[k].id);
  }

  /** A row that stays is found under its id. */
  lemma Stays(rows: seq<Entry>, row: Entry)
    requires row in rows
    ensures row.id in Ids(rows)
  {
  }

  /** Written rows on the list are to be written again, the others stay as they are. */
  lemma Rewritten(s: State, row: Entry)
    requires row in s.pending
    ensures row.(sent := row.sent && row.id !in s.replay) in PrepareReplay(s).pending
  {
    var k :| 0 <= k < |s.pending| && s.pending[k] == row;
    var rows := PrepareReplay(s).pending;
    assert rows[k] == row.(sent := row.sent && row.id !in s.replay);
  }

  // ---------------------------------------------------------------- a transport is lost

  /** The last attempt to connect was used up. */
  predicate GivesUp(s: State) { s.config.maxReconnects > 0 && s.reconnectAttempts >= s.config.maxReconnects }

  /** The request outlives the loss of the transport: it was not meant for that transport, the connection is not
      lossy, pending requests are not to fail, another attempt is made; and either there is a session to resume or
      the request was not sent. */
  predicate Outlives(s: State, row: Entry) {
    && row.generation == 0 && !s.lossy && s.config.policy != FailPending && !GivesUp(s)
    && (s.serverCookie != 0 || !row.sent)
  }

  lemma SettledFates(s: State, k: nat)
    requires Shaped(s.pending) && k < |s.pending|
    ensures var row, t := s.pending[k], SettleFault(s);
            var stays := !s.lossy && s.config.policy != FailPending && (s.serverCookie != 0 || !row.sent);
            && (row.id in Ids(t.pending) <==> stays)
            && (stays ==> row.(sent := row.sent && (s.serverCookie == 0 || row.id !in s.replay)) in t.pending)
  {
    hide FailAll, SettleWhere, PrepareReplay, Shaped;
    var row := s.pending[k];
    if s.lossy {
      var anew := FailSentUnknown(s).(pendingAck := 0, serverCookie := 0, lossy := false, connectSequence := 0,
                                      lastInbound := 0, nextOutbound := 1, sequenceExhausted := false,
                                      nextTid := 1, tidExhausted := false);
      I.FailAllRest(anew);
    } else if s.config.policy == FailPending {
      I.FailAllRest(s);
    } else if s.serverCookie == 0 {
      Sifted(s, SentRow, AnyRow, AtFailSent, k);
    } else {
      Rewritten(s, row);
      Stays(PrepareReplay(s).pending, row.(sent := row.sent && row.id !in s.replay));
    }
  }

  /** When a transport is lost, exactly the requests that outlive it stay in the table, under their sequence;
      those on the replay list of a session that can be resumed are to be written again. */
  lemma FaultFates(s: State, k: nat)
    requires Shaped(s.pending) && k < |s.pending| && !IgnoresFault(s)
    ensures var row, t := s.pending[k], HandleFault(s);
            && (row.id in Ids(t.pending) <==> Outlives(s, row))
            && (Outlives(s, row) ==>
                  row.(sent := row.sent && (s.serverCookie == 0 || row.id !in s.replay)) in t.pending)
  {
    hide SettleWhere, SettleFault, FailTerminal, Shaped, Ids, I.Scoped;
    var row := s.pending[k];
    var cut := InvalidateControls(s).(pendingAck := 0, linked := false, writeBusy := false, controlQueue := []);
    var settled := SettleFault(cut).(phase := Disconnected);
    I.InvalidateRest(s);
    I.SettleFaultIs(cut);
    Sifted(s, ScopedRow, NoRow, AtInvalidate, k);
    if GivesUp(s) {
      I.FailTerminalIs(settled);
      assert row.id !in Ids([]) by { NoIds(row.id); }
    } else if row.generation == 0 {
      var j :| 0 <= j < |cut.pending| && cut.pending[j] == row;
      SettledFates(cut, j);
    } else {
      SettledFewer(cut, row.id);
    }
  }

  lemma NoIds(id: RequestId)
    ensures id !in Ids([])
  {
  }

  /** No request comes back. */
  lemma SettledFewer(s: State, id: RequestId)
    requires Shaped(s.pending) && id !in Ids(s.pending)
    ensures id !in Ids(SettleFault(s).pending)
  {
    hide FailAll, Settle, Chosen, Unsend;
    var sent := FailSentUnknown(s);
    DropKeepsIds(s.pending, Chosen(s.pending, SentRow, AnyRow, AtFailSent).Keys);
    assert sent.pending == Drop(s.pending,
                                Chosen(s.pending, SentRow, AnyRow, AtFailSent).Keys) by { hide *; SentDropped(s); }
    I.FailAllRest(s);
    I.FailAllRest(sent.(pendingAck := 0, serverCookie := 0, lossy := false, connectSequence := 0,
                        lastInbound := 0, nextOutbound := 1, sequenceExhausted := false,
                        nextTid := 1, tidExhausted := false));
    UnsendIds(s.pending, s.replay);
  }

  lemma SentDropped(s: State)
    ensures FailSentUnknown(s).pending == Drop(s.pending, Chosen(s.pending, SentRow, AnyRow, AtFailSent).Keys)
  {
  }

  // ---------------------------------------------------------------- a session begins anew

  /** A frame on the current transport is handled. */
  lemma ControlStep(s: State, event: Event)
    requires s.nextTid <= MAX_UINT64 && event.ControlEvent? && event.generation == s.generation
    requires !s.terminal && s.phase != Stopped
    ensures Step(s, event) == HandleControl(s, event.control)
  {
    hide HandleControl;
  }

  /** The server's identification is taken. */
  predicate Identified(s: State, event: Event) {
    && event.ControlEvent? && event.control.ServerIdent? && event.generation == s.generation && !s.terminal
    && s.phase == Connecting && s.transitions < s.config.maxTransitions
    && event.control.featuresOk && event.control.endpointOk
  }

  /** With a new session exactly the requests that were not sent stay, as they are, and nothing is left to be
      written again from the list; the attempts are forgotten. */
  lemma IdentFates(s: State, event: Event, k: nat)
    requires s.nextTid <= MAX_UINT64 && Shaped(s.pending) && k < |s.pending| && Identified(s, event)
    ensures var row, t := s.pending[k], Step(s, event);
            && (row.id in Ids(t.pending) <==> !row.sent) && (!row.sent ==> row in t.pending)
            && t.replay == [] && t.phase == Ready && t.reconnectAttempts == 0
            && t.serverCookie == event.control.cookie && t.lossy == event.control.isLossy
  {
    ControlStep(s, event);
    hide SettleWhere, Shaped, Ids, Step;
    var known := s.(transitions := s.transitions + 1, serverCookie := event.control.cookie,
                    lossy := event.control.isLossy, reconnectAttempts := 0);
    R.SettleWhereFrame(known, SentRow, AnyRow, AtFailSent);
    Sifted(known, SentRow, AnyRow, AtFailSent, k);
  }

  /** The server's reset is taken. */
  predicate Reset(s: State, event: Event) {
    && event.ControlEvent? && event.control.SessionReset? && event.generation == s.generation && !s.terminal
    && s.phase == Reconnecting && s.transitions < s.config.maxTransitions
  }

  lemma ResetStep(s: State, event: Event)
    requires s.nextTid <= MAX_UINT64 && Reset(s, event)
    ensures Step(s, event) ==
              HandleReset(s.(transitions := s.transitions + 1), event.control.full, event.control.cookieOk)
  {
    hide HandleReset;
    ControlStep(s, event);
  }

  lemma HandleResetEmpties(s: State, cookieOk: bool)
    ensures HandleReset(s, true, cookieOk).pending == []
  {
    hide InvalidateControls, FailTerminal, FailAll, QueueControl;
    var cut := InvalidateControls(s.(pendingAck := 0)).(serverCookie := 0, lossy := false, connectSequence := 0,
                                                       lastInbound := 0);
    var renumbered := cut.(nextOutbound := 1, sequenceExhausted := false, nextTid := 1, tidExhausted := false);
    I.FailTerminalIs(cut);
    I.FailAllRest(renumbered);
    QueuedEmpty(FailAll(renumbered).(phase := Connecting), ClientIdentFrame);
  }

  /** A full reset leaves no request in the table. */
  lemma FullResetEmpties(s: State, event: Event)
    requires s.nextTid <= MAX_UINT64 && Reset(s, event) && event.control.full
    ensures Step(s, event).pending == []
  {
    hide Step, HandleReset;
    ResetStep(s, event);
    HandleResetEmpties(s.(transitions := s.transitions + 1), event.control.cookieOk);
  }

  lemma QueuedEmpty(s: State, frame: ControlFrame)
    requires s.pending == []
    ensures QueueControl(s, frame).pending == []
  {
    hide HandleFault;
    FaultEmpty(s);
  }

  lemma FaultEmpty(s: State)
    requires s.pending == []
    ensures HandleFault(s).pending == []
  {
    hide SettleWhere, SettleFault, BeginReconnect;
    if !IgnoresFault(s) {
      var cut := InvalidateControls(s).(pendingAck := 0, linked := false, writeBusy := false, controlQueue := []);
      NothingSettled(s, ScopedRow, NoRow, AtInvalidate);
      SettledEmpty(cut);
      var settled := SettleFault(cut).(phase := Disconnected);
      AskedEmpty(settled);
    }
  }

  lemma NothingSettled(s: State, chosen: Entry -> bool, unknown: Entry -> bool, site: Site)
    requires s.pending == []
    ensures SettleWhere(s, chosen, unknown, site).pending == []
  {
  }

  lemma SettledEmpty(s: State)
    requires s.pending == []
    ensures SettleFault(s).pending == []
  {
    hide SettleWhere;
    NothingSettled(s, SentRow, AnyRow, AtFailSent);
    NothingSettled(s, AnyRow, ExecutedRow, AtFailAll);
    NothingSettled(FailSentUnknown(s).(pendingAck := 0, serverCookie := 0, lossy := false, connectSequence := 0,
                                       lastInbound := 0, nextOutbound := 1, sequenceExhausted := false,
                                       nextTid := 1, tidExhausted := false), AnyRow, ExecutedRow, AtFailAll);
  }

  lemma AskedEmpty(s: State)
    requires s.pending == []
    ensures BeginReconnect(s).pending == []
  {
    hide FailTerminal;
    I.FailTerminalIs(s);
  }

  /** The state in which a reset leaves the session, before its requests are looked at. */
  function CutOff(s: State): (t: State) {
    InvalidateControls(s.(pendingAck := 0)).(serverCookie := 0, lossy := false, connectSequence := 0, lastInbound := 0)
  }

  lemma PartialIs(s: State, cookieOk: bool)
    requires s.config.fits(ClientIdentFrame) && |s.controlQueue| < s.config.maxQueued
    ensures var t, rest := HandleReset(s, false, cookieOk), PrepareReplay(CutOff(s));
            && t.phase == Connecting && t.controlQueue == s.controlQueue + [ClientIdentFrame]
            && t.serverCookie == 0 && t.lastInbound == 0 && t.nextOutbound == s.nextOutbound
            && t.pending == rest.pending
  {
    hide InvalidateControls, PrepareReplay, HandleFault, I.Scoped, I.Fewer;
    I.InvalidateRest(s.(pendingAck := 0));
    I.PrepareRest(CutOff(s));
  }

  lemma CutOffRows(s: State, k: nat)
    requires Shaped(s.pending) && k < |s.pending|
    ensures var row, rows := s.pending[k], PrepareReplay(CutOff(s)).pending;
            && (row.id in Ids(rows) <==> row.generation == 0)
            && (row.generation == 0 ==> row.(sent := row.sent && row.id !in s.replay) in rows)
  {
    hide SettleWhere, PrepareReplay, Shaped, Ids;
    var quiet, row, cut := s.(pendingAck := 0), s.pending[k], CutOff(s);
    Sifted(quiet, ScopedRow, NoRow, AtInvalidate, k);
    if row.generation == 0 {
      Rewritten(cut, row);
      Stays(PrepareReplay(cut).pending, row.(sent := row.sent && row.id !in s.replay));
    } else {
      PreparedIds(cut);
    }
  }

  lemma PreparedIds(s: State)
    ensures Ids(PrepareReplay(s).pending) == Ids(s.pending)
  {
    UnsendIds(s.pending, s.replay);
  }

  /** After a partial reset the client identifies itself anew. Sequences go on, what was received is forgotten, and
      all requests stay but those meant for the transport; those on the list are to be written again. */
  lemma PartialResetFates(s: State, event: Event, k: nat)
    requires s.nextTid <= MAX_UINT64 && Shaped(s.pending) && k < |s.pending|
    requires Reset(s, event) && !event.control.full
    requires s.config.fits(ClientIdentFrame) && |s.controlQueue| < s.config.maxQueued
    ensures var row, t := s.pending[k], Step(s, event);
            && t.phase == Connecting && t.controlQueue == s.controlQueue + [ClientIdentFrame]
            && t.serverCookie == 0 && t.lastInbound == 0 && t.nextOutbound == s.nextOutbound
            && (row.id in Ids(t.pending) <==> row.generation == 0)
            && (row.generation == 0 ==> row.(sent := row.sent && row.id !in s.replay) in t.pending)
  {
    hide Step, HandleReset, Shaped, Ids, CutOff, PrepareReplay;
    ResetStep(s, event);
    PartialIs(s.(transitions := s.transitions + 1), event.control.cookieOk);
    CutOffRows(s.(transitions := s.transitions + 1), k);
  }

  // ---------------------------------------------------------------- admission

  /** There is room for the request: sixteen control requests of 1 MiB together, and what is configured for others. */
  predicate HasRoom(s: State, command: Command) {
    var controls := SumOf(s.pending, ControlRow);
    if command.control then
      controls < MAX_CONTROL_MESSAGES && SumOf(s.pending, ControlBytes) + command.bytes <= MAX_CONTROL_RETAINED_BYTES
    else
      && |s.pending| - controls < s.config.maxQueued
      && SumOf(s.pending, ApplicationBytes) + command.bytes <= s.config.maxRetained
  }

  /** A transaction id can be had: the caller's own if nobody uses it, otherwise one that is left. */
  ghost predicate HasTid(s: State, command: Command) {
    if command.tid != 0 then command.tid !in Tids(s.pending)
    else !s.tidExhausted && exists tid :: 1 <= tid <= MAX_UINT64 && s.nextTid <= tid && tid !in Tids(s.pending)
  }

  ghost predicate Welcome(s: State, command: Command, cancelled: bool) {
    && (command.generation == 0 || command.generation == s.controlGeneration) && !cancelled && !s.terminal
    && (command.control ==> command.validControl) && command.wellFormed && HasRoom(s, command) && HasTid(s, command)
  }

  /** The command is the last row now, unsent and unnumbered, under its own transaction id or the least left. */
  ghost predicate TakenIn(s: State, t: State, command: Command, tid: nat) {
    && t.pending == s.pending + [Row(command, tid)] && Deliveries(t.results, command.id) == []
    && tid !in Tids(s.pending) && (command.tid != 0 ==> tid == command.tid)
    && (command.tid == 0 ==>
          && 1 <= tid && s.nextTid <= tid
          && forall other :: 1 <= other && s.nextTid <= other < tid ==> other in Tids(s.pending))
  }

  /** The command failed and was certainly not executed; running out of transaction ids ends the session. */
  ghost predicate TurnedDown(s: State, t: State, command: Command) {
    && Deliveries(t.results, command.id) == [Delivery(Failed(false), AtSubmit)]
    && (t.pending == s.pending || (t.terminal && t.pending == []))
  }

  lemma WelcomeIff(s: State, command: Command, cancelled: bool)
    requires s.nextTid <= MAX_UINT64
    ensures Welcome(s, command, cancelled) <==>
            !Refused(s, command, cancelled)
            && (command.tid == 0 ==> TakeTid(Tids(s.pending), s.nextTid, s.tidExhausted).tid.Some?)
  {
    hide SumOf, Tids, TakeTid;
    TakenIff(Tids(s.pending), s.nextTid, s.tidExhausted);
  }

  lemma RefusedFate(s: State, command: Command)
    ensures TurnedDown(s, Record(s, command, [Delivery(Failed(false), AtSubmit)]), command)
  {
  }

  lemma AdmittedFate(s: State, r: State, command: Command, tid: nat)
    requires r.pending == s.pending && tid !in Tids(s.pending) && (command.tid != 0 ==> tid == command.tid)
    requires command.tid == 0 ==>
               && 1 <= tid && s.nextTid <= tid
               && forall other :: 1 <= other && s.nextTid <= other < tid ==> other in Tids(s.pending)
    ensures TakenIn(s, Admit(Record(r, command, []), command, tid), command, tid)
  {
    hide Tids;
  }

  lemma ExhaustedFate(s: State, r: State, command: Command)
    ensures TurnedDown(s, Record(FailTerminal(r), command, [Delivery(Failed(false), AtSubmit)]), command)
  {
    hide FailTerminal;
    I.FailTerminalIs(r);
  }

  /** A command is taken into the table exactly if it is welcome; otherwise it fails at once. */
  lemma SubmitFate(s: State, command: Command, cancelled: bool)
    requires s.nextTid <= MAX_UINT64 && s.phase != Stopped
    ensures var t := Step(s, SubmitEvent(command, cancelled));
            && (Welcome(s, command, cancelled) ==> exists tid: nat :: TakenIn(s, t, command, tid))
            && (!Welcome(s, command, cancelled) ==> TurnedDown(s, t, command))
  {
    SubmitStep(s, command, cancelled);
    hide FailTerminal, Tids, TakeTid, Refused, Welcome, TakenIn, TurnedDown, Step, Admit, Record;
    WelcomeIff(s, command, cancelled);
    RefusedFate(s, command);
    if !Refused(s, command, cancelled) {
      if command.tid != 0 {
        RefusedTid(s, command, cancelled);
        AdmittedFate(s, s, command, command.tid);
      } else {
        var taken := TakeTid(Tids(s.pending), s.nextTid, s.tidExhausted);
        var numbered := s.(nextTid := taken.next, tidExhausted := taken.exhausted);
        ExhaustedFate(s, numbered, command);
        if taken.tid.Some? { AdmittedFate(s, numbered, command, taken.tid.value); }
      }
    }
  }

  lemma SubmitStep(s: State, command: Command, cancelled: bool)
    requires s.nextTid <= MAX_UINT64 && s.phase != Stopped
    ensures Step(s, SubmitEvent(command, cancelled)) == Submit(s, command, cancelled)
  {
    hide Submit;
  }

  lemma RefusedTid(s: State, command: Command, cancelled: bool)
    requires !Refused(s, command, cancelled) && command.tid != 0
    ensures command.tid !in Tids(s.pending)
  {
    hide Tids, Saturated;
  }

  lemma TakenIff(used: set<nat>, next: nat, exhausted: bool)
    requires next <= MAX_UINT64
    ensures TakeTid(used, next, exhausted).tid.Some? <==>
            !exhausted && exists tid :: 1 <= tid <= MAX_UINT64 && next <= tid && tid !in used
  {
    hide TakeTid;
    if exhausted { TakenNone(used, next); }
  }

  lemma TakenNone(used: set<nat>, next: nat)
    requires next <= MAX_UINT64
    ensures TakeTid(used, next, true).tid.None?
  {
  }
}
