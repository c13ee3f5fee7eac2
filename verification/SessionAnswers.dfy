/** What becomes of an answer once it was given, and which answers are replies. */
module SessionAnswers {
  import opened Common
  import opened SessionState
  import opened SessionSteps
  import opened SessionInvariant
  import opened SessionRuns

  /** The part of the owner's state that a requester can tell. */
  datatype Face = Face(
    commands: map<RequestId, Command>,
    pending: seq<Entry>,
    results: map<RequestId, seq<Delivery>>,
    dispatched: set<RequestId>,
    admissions: map<RequestId, nat>,
    admitted: nat)

  function FaceOf(s: State): (f: Face) {
    Face(s.commands, s.pending, s.results, s.dispatched, s.admissions, s.admitted)
  }

  /** A failure, or the completion of a one-way request, that does not come from the context check at redispatch. */
  predicate Plain(delivery: Delivery) { !delivery.outcome.Replied? && delivery.site != AtRedispatch }

  /** Results are only added, and the new ones are plain. */
  ghost predicate Grew(before: seq<Delivery>, after: seq<Delivery>) {
    before <= after && forall k :: |before| <= k < |after| ==> Plain(after[k])
  }

  /** Commands stay what they are, turns once given are kept, and new ones come after all of them. */
  ghost predicate Onward(f: Face, g: Face) {
    && Keep(f.commands, g.commands)
    && f.admitted <= g.admitted
    && (forall id :: id in f.admissions ==> id in g.admissions && g.admissions[id] == f.admissions[id])
    && (forall id :: id in g.admissions && id !in f.admissions ==> g.admissions[id] >= f.admitted)
  }

  ghost predicate Keep(before: map<RequestId, Command>, after: map<RequestId, Command>) {
    forall id :: id in before ==> id in after && after[id] == before[id]
  }

  /** A request that has left the table keeps its results and stays out; one in the table gets plain results only. */
  ghost predicate Orderly(f: Face, g: Face, id: RequestId) {
    && Onward(f, g)
    && Grew(Deliveries(f.results, id), Deliveries(g.results, id))
    && (id !in Ids(f.pending) ==> id !in Ids(g.pending) && Deliveries(g.results, id) == Deliveries(f.results, id))
  }

  /** And nothing is handed to a writer. */
  ghost predicate Calm(f: Face, g: Face, id: RequestId) { Orderly(f, g, id) && g.dispatched == f.dispatched }

  /** Or it is, and then stays in the table. */
  ghost predicate Sends(f: Face, g: Face, id: RequestId) {
    Orderly(f, g, id) && f.dispatched <= g.dispatched
        && (id in g.dispatched && id !in f.dispatched ==> id in Ids(g.pending))
  }

  lemma Still(f: Face, id: RequestId)
    ensures Calm(f, f, id)
  {
  }

  lemma GrewThen(a: seq<Delivery>, b: seq<Delivery>, c: seq<Delivery>)
    requires Grew(a, b) && Grew(b, c)
    ensures Grew(a, c)
  {
    forall k | |a| <= k < |c| ensures Plain(c[k]) {
      if k < |b| { assert c[k] == b[k]; }
    }
  }

  lemma OnwardThen(f: Face, g: Face, h: Face)
    requires Onward(f, g) && Onward(g, h)
    ensures Onward(f, h)
  {
  }

  lemma OrderlyThen(f: Face, g: Face, h: Face, id: RequestId)
    requires Orderly(f, g, id) && Orderly(g, h, id)
    ensures Orderly(f, h, id)
  {
    hide Onward, Grew;
    GrewThen(Deliveries(f.results, id), Deliveries(g.results, id), Deliveries(h.results, id));
    OnwardThen(f, g, h);
  }

  lemma Then(f: Face, g: Face, h: Face, id: RequestId)
    requires Calm(f, g, id) && Calm(g, h, id)
    ensures Calm(f, h, id)
  {
    hide Orderly;
    OrderlyThen(f, g, h, id);
  }

  lemma ThenSends(f: Face, g: Face, h: Face, id: RequestId)
    requires Calm(f, g, id) && Sends(g, h, id)
    ensures Sends(f, h, id)
  {
    hide Orderly;
    OrderlyThen(f, g, h, id);
  }

  lemma CalmSends(f: Face, g: Face, id: RequestId)
    requires Calm(f, g, id)
    ensures Sends(f, g, id)
  {
    hide Orderly;
  }

  // ---------------------------------------------------------------- settling

  lemma DeliveriesAfter(results: map<RequestId, seq<Delivery>>, deliver: map<RequestId, Delivery>, id: RequestId)
    ensures Deliveries(Delivered(results, deliver), id) == Deliveries(results, id)
            + (if id in deliver then [deliver[id]] else [])
  {
  }

  /** Settling rows of the table, none with a reply. */
  lemma SettleCalm(s: State, deliver: map<RequestId, Delivery>, id: RequestId)
    requires id in deliver ==> id in Ids(s.pending) && Plain(deliver[id])
    ensures Calm(FaceOf(s), FaceOf(Settle(s, deliver)), id)
  {
    hide Drop, Ids, Delivered, DropIds;
    DropKeepsIds(s.pending, deliver.Keys);
    DeliveriesAfter(s.results, deliver, id);
  }

  lemma SettleWhereCalm(s: State, chosen: Entry -> bool, unknown: Entry -> bool, site: Site, id: RequestId)
    requires site != AtRedispatch
    ensures Calm(FaceOf(s), FaceOf(SettleWhere(s, chosen, unknown, site)), id)
  {
    hide Settle, Calm, Chosen;
    if id in Chosen(s.pending, chosen, unknown, site) {
      ChosenKeys(s.pending, chosen, unknown, site, id);
    }
    SettleCalm(s, Chosen(s.pending, chosen, unknown, site), id);
  }

  lemma InvalidateCalm(s: State, id: RequestId)
    ensures Calm(FaceOf(s), FaceOf(InvalidateControls(s)), id)
  {
    hide SettleWhere, Calm;
    SettleWhereCalm(s, ScopedRow, NoRow, AtInvalidate, id);
  }

  lemma FailAllCalm(s: State, id: RequestId)
    ensures Calm(FaceOf(s), FaceOf(FailAll(s)), id)
  {
    hide SettleWhere, Calm;
    SettleWhereCalm(s, AnyRow, ExecutedRow, AtFailAll, id);
  }

  lemma FailSentCalm(s: State, id: RequestId)
    ensures Calm(FaceOf(s), FaceOf(FailSentUnknown(s)), id)
  {
    hide SettleWhere, Calm;
    SettleWhereCalm(s, SentRow, AnyRow, AtFailSent, id);
  }

  lemma PrepareReplayCalm(s: State, id: RequestId)
    ensures Calm(FaceOf(s), FaceOf(PrepareReplay(s)), id)
  {
    hide Ids, Unsend;
    UnsendIds(s.pending, s.replay);
  }

  // ---------------------------------------------------------------- faults

  lemma ResetIdentityCalm(s: State, id: RequestId)
    ensures Calm(FaceOf(s), FaceOf(ResetForNewIdentity(s)), id)
  {
    hide FailAll, Calm;
    FailAllCalm(s.(pendingAck := 0, serverCookie := 0, lossy := false, connectSequence := 0,
                   lastInbound := 0, nextOutbound := 1, sequenceExhausted := false,
                   nextTid := 1, tidExhausted := false), id);
  }

  lemma FailTerminalCalm(s: State, id: RequestId)
    ensures Calm(FaceOf(s), FaceOf(FailTerminal(s)), id)
  {
    hide FailAll, InvalidateControls, Calm;
    var cut := InvalidateControls(s);
    var dead := cut.(pendingAck := 0, generation := s.generation + 1, terminal := true,
                     linked := false, writeBusy := false, controlQueue := [], connectPending := false);
    InvalidateCalm(s, id);
    FailAllCalm(dead, id);
    Then(FaceOf(s), FaceOf(cut), FaceOf(FailAll(dead)), id);
  }

  lemma BeginReconnectCalm(s: State, id: RequestId)
    ensures Calm(FaceOf(s), FaceOf(BeginReconnect(s)), id)
  {
    hide FailTerminal, Calm;
    FailTerminalCalm(s, id);
    Still(FaceOf(s), id);
  }

  lemma SettleFaultCalm(s: State, id: RequestId)
    ensures Calm(FaceOf(s), FaceOf(SettleFault(s)), id)
  {
    hide FailAll, FailSentUnknown, ResetForNewIdentity, PrepareReplay, Calm;
    FailAllCalm(s, id);
    FailSentCalm(s, id);
    PrepareReplayCalm(s, id);
    var sent := FailSentUnknown(s);
    ResetIdentityCalm(sent, id);
    Then(FaceOf(s), FaceOf(sent), FaceOf(ResetForNewIdentity(sent)), id);
  }

  lemma HandleFaultCalm(s: State, id: RequestId)
    ensures Calm(FaceOf(s), FaceOf(HandleFault(s)), id)
  {
    hide InvalidateControls, SettleFault, BeginReconnect, Calm;
    Still(FaceOf(s), id);
    var cut := InvalidateControls(s).(pendingAck := 0, linked := false, writeBusy := false, controlQueue := []);
    var settled := SettleFault(cut).(phase := Disconnected);
    InvalidateCalm(s, id);
    SettleFaultCalm(cut, id);
    BeginReconnectCalm(settled, id);
    Then(FaceOf(s), FaceOf(cut), FaceOf(settled), id);
    Then(FaceOf(s), FaceOf(settled), FaceOf(BeginReconnect(settled)), id);
  }

  // ---------------------------------------------------------------- control frames out

  lemma QueueControlCalm(s: State, frame: ControlFrame, id: RequestId)
    ensures Calm(FaceOf(s), FaceOf(QueueControl(s, frame)), id)
  {
    hide HandleFault, Calm;
    HandleFaultCalm(s, id);
    Still(FaceOf(s), id);
  }

  lemma FlushCalm(s: State, id: RequestId)
    ensures Calm(FaceOf(s), FaceOf(FlushAcknowledgment(s)), id)
  {
    hide QueueControl, Calm;
    Still(FaceOf(s), id);
    QueueControlCalm(s.(pendingAck := 0), AckFrame(s.pendingAck), id);
  }

  lemma QueueAcknowledgmentCalm(s: State, sequence: nat, id: RequestId)
    ensures Calm(FaceOf(s), FaceOf(QueueAcknowledgment(s, sequence)), id)
  {
    hide QueueControl, HandleFault, Calm;
    Still(FaceOf(s), id);
    QueueControlCalm(s, AckFrame(sequence), id);
    HandleFaultCalm(s, id);
  }

  lemma SendReconnectCalm(s: State, id: RequestId)
    ensures Calm(FaceOf(s), FaceOf(SendReconnect(s)), id)
  {
    hide QueueControl, Calm;
    QueueControlCalm(s.(controlQueue := []), ReconnectFrame(s.connectSequence, s.lastInbound), id);
  }

  // ---------------------------------------------------------------- requests

  lemma SubmitCalm(s: State, command: Command, cancelled: bool, id: RequestId)
    requires s.nextTid <= MAX_UINT64 && id in s.commands && command.id !in s.commands
    requires s.admissions.Keys <= s.commands.Keys
    ensures Calm(FaceOf(s), FaceOf(Submit(s, command, cancelled)), id)
  {
    hide FailTerminal, Calm, TakeTid, Refused;
    var taken := TakeTid(Tids(s.pending), s.nextTid, s.tidExhausted);
    var numbered := s.(nextTid := taken.next, tidExhausted := taken.exhausted);
    var refusal := [Delivery(Failed(false), AtSubmit)];
    RecordCalm(s, command, refusal, id);
    AdmitCalm(s, command, command.tid, id);
    if taken.tid.None? {
      FailTerminalCalm(numbered, id);
      FailTerminalCommands(numbered);
      RecordCalm(FailTerminal(numbered), command, refusal, id);
      Then(FaceOf(s), FaceOf(FailTerminal(numbered)), FaceOf(Record(FailTerminal(numbered), command, refusal)), id);
    } else {
      AdmitCalm(numbered, command, taken.tid.value, id);
    }
  }

  lemma RecordCalm(s: State, command: Command, deliveries: seq<Delivery>, id: RequestId)
    requires id in s.commands && command.id !in s.commands
    ensures Calm(FaceOf(s), FaceOf(Record(s, command, deliveries)), id)
  {
    hide Ids;
  }

  lemma AdmitCalm(s: State, command: Command, tid: nat, id: RequestId)
    requires id in s.commands && command.id !in s.commands && s.admissions.Keys <= s.commands.Keys
    ensures Calm(FaceOf(s), FaceOf(Admit(Record(s, command, []), command, tid)), id)
  {
    var rows := s.pending + [Row(command, tid)];
    if id in Ids(rows) {
      var i :| 0 <= i < |rows| && rows[i].id == id;
      assert i < |s.pending| && s.pending[i].id == id;
    }
  }

  /** Settling one row of the table. */
  lemma SettleOneCalm(s: State, index: nat, delivery: Delivery, id: RequestId)
    requires index < |s.pending| && Plain(delivery)
    ensures Calm(FaceOf(s), FaceOf(Settle(s, map[s.pending[index].id := delivery])), id)
  {
    hide Settle, Calm;
    SettleCalm(s, map[s.pending[index].id := delivery], id);
  }

  lemma CancelCalm(s: State, target: RequestId, id: RequestId)
    ensures Calm(FaceOf(s), FaceOf(Cancel(s, target)), id)
  {
    hide Settle, Calm, FindId;
    Still(FaceOf(s), id);
    var index := FindId(s.pending, target);
    if index < |s.pending| {
      SettleOneCalm(s, index, Delivery(Failed(s.pending[index].mayHaveExecuted), AtCancel), id);
    }
  }

  lemma HandToWriterSends(s: State, index: nat, sequence: nat, id: RequestId)
    requires index < |s.pending|
    ensures Sends(FaceOf(s), FaceOf(HandToWriter(s, index, sequence)), id)
  {
    var rows := HandToWriter(s, index, sequence).pending;
    assert rows[index].id == s.pending[index].id;
    if id in Ids(rows) {
      var i :| 0 <= i < |rows| && rows[i].id == id;
      assert s.pending[i].id == id;
    }
  }

  lemma WriteRowSends(s: State, index: nat, id: RequestId)
    requires index < |s.pending|
    ensures Sends(FaceOf(s), FaceOf(WriteRow(s, index)), id)
  {
    hide HandToWriter, FailTerminal, Calm, Sends;
    HandToWriterSends(s, index, s.pending[index].sequence, id);
    HandToWriterSends(AllocateSequence(s), index, FreshSequence(s), id);
    FailTerminalCalm(s, id);
    CalmSends(FaceOf(s), FaceOf(FailTerminal(s)), id);
  }

  /** The row at `index` is an application request that is to be written and whose context has ended. */
  predicate GivenUp(s: State, index: nat, cancelled: bool)
    requires index < |s.pending|
  {
    cancelled && !s.pending[index].control && InFlight(s) < s.config.maxInFlight
  }

  lemma DispatchRowSends(s: State, index: nat, cancelled: bool, id: RequestId)
    requires index < |s.pending| && (GivenUp(s, index, cancelled) ==> id != s.pending[index].id)
    ensures Sends(FaceOf(s), FaceOf(DispatchRow(s, index, cancelled)), id)
  {
    hide Settle, Cancel, WriteRow, SumOf, Calm, Sends;
    var row, f := s.pending[index], FaceOf(s);
    if row.generation != 0 && row.generation != s.controlGeneration {
      SettleOneCalm(s, index, Delivery(Failed(false), AtInvalidate), id);
      CalmSends(f, FaceOf(DispatchRow(s, index, cancelled)), id);
    } else if !row.control && InFlight(s) >= s.config.maxInFlight {
      Still(f, id);
      CalmSends(f, f, id);
    } else if cancelled && row.control {
      CancelCalm(s, row.id, id);
      CalmSends(f, FaceOf(Cancel(s, row.id)), id);
    } else if cancelled {
      var deliver := map[row.id := Delivery(Failed(false), AtRedispatch)];
      SettleCalm(s, deliver, id);
      CalmSends(f, FaceOf(Settle(s, deliver)), id);
    } else {
      WriteRowSends(s, index, id);
    }
  }

  /** What a caller can see coming before a dispatch: the request is next to be written, nothing holds
      the writer back, and its context has ended. */
  predicate Redispatched(s: State, event: Event, id: RequestId) {
    && event == DispatchEvent(true)
    && s.linked && !s.writeBusy && s.phase == Ready && s.controlQueue == [] && !s.renewalPending
    && InFlight(s) < s.config.maxInFlight
    && var index := NextWrite(s.pending);
    index < |s.pending| && s.pending[index].id == id && !s.pending[index].control
  }

  lemma DispatchReadySends(s: State, cancelled: bool, id: RequestId)
    requires !s.renewalPending && cancelled ==>
               var index := NextWrite(s.pending);
               index < |s.pending| && s.pending[index].id == id && !s.pending[index].control ==>
                   InFlight(s) >= s.config.maxInFlight
    ensures Sends(FaceOf(s), FaceOf(DispatchReady(s, cancelled)), id)
  {
    hide DispatchRow, HandleFault, NextWrite, SumOf, Calm, Sends;
    var index, f := NextWrite(s.pending), FaceOf(s);
    Still(f, id);
    CalmSends(f, f, id);
    HandleFaultCalm(s.(renewalPending := false), id);
    CalmSends(f, FaceOf(HandleFault(s.(renewalPending := false))), id);
    if index < |s.pending| && !(s.renewalPending
                                && !s.pending[index].control) { DispatchRowSends(s, index, cancelled, id); }
  }

  /** A fault leaves the renewal request as it was. */
  lemma FlushKeepsRenewal(s: State)
    ensures FlushAcknowledgment(s).renewalPending == s.renewalPending
  {
    hide Drop, DropIds, Delivered, Chosen, Unsend, Trimmed;
  }

  lemma DispatchSends(s: State, cancelled: bool, id: RequestId)
    requires !Redispatched(s, DispatchEvent(cancelled), id)
    ensures Sends(FaceOf(s), FaceOf(Dispatch(s, cancelled)), id)
  {
    hide DispatchNext, FlushAcknowledgment, SumOf, Calm, Sends, NextWrite;
    var f := FaceOf(s);
    if s.writeBusy || !s.linked || s.phase in {Disconnected, Waiting, Stopped} {
      Still(f, id);
      CalmSends(f, f, id);
    } else if s.renewalPending && s.pendingAck != 0 && InFlight(s) == 0 {
      var flushed := FlushAcknowledgment(s);
      FlushCalm(s, id);
      FlushKeepsRenewal(s);
      DispatchNextSends(flushed, cancelled, id);
      ThenSends(f, FaceOf(flushed), FaceOf(DispatchNext(flushed, cancelled)), id);
    } else {
      DispatchNextSends(s, cancelled, id);
    }
  }

  lemma DispatchNextSends(s: State, cancelled: bool, id: RequestId)
    requires s.phase == Ready && s.controlQueue == [] && !s.renewalPending && cancelled ==>
               var index := NextWrite(s.pending);
               index < |s.pending| && s.pending[index].id == id && !s.pending[index].control ==>
                   InFlight(s) >= s.config.maxInFlight
    ensures Sends(FaceOf(s), FaceOf(DispatchNext(s, cancelled)), id)
  {
    hide DispatchReady, SumOf, Calm, Sends, NextWrite;
    Still(FaceOf(s), id);
    CalmSends(FaceOf(s), FaceOf(s), id);
    if s.controlQueue == [] && s.phase == Ready { DispatchReadySends(s, cancelled, id); }
  }

  lemma HandleWrittenCalm(s: State, generation: nat, request: Option<RequestId>, failed: bool, id: RequestId)
    ensures Calm(FaceOf(s), FaceOf(HandleWritten(s, generation, request, failed)), id)
  {
    hide Settle, HandleFault, FindId, Calm;
    Still(FaceOf(s), id);
    var idle := s.(writeBusy := false);
    HandleFaultCalm(idle, id);
    if request.Some? {
      var index := FindId(idle.pending, request.value);
      if index < |idle.pending| { SettleOneCalm(idle, index, Delivery(Sent, AtWritten), id); }
    }
  }

  // ---------------------------------------------------------------- frames in

  /** The message carries the transaction of this request, which is an application request in the table. */
  ghost predicate ReplyFor(rows: seq<Entry>, message: Inbound, id: RequestId) {
    exists i :: 0 <= i < |rows| && rows[i].id == id && rows[i].tid == message.tid && !rows[i].control
  }

  lemma UnsolicitedCalm(s: State, sequence: nat, queueFull: bool, before: nat, id: RequestId)
    ensures var acked := QueueAcknowledgment(s, sequence);
            Calm(FaceOf(s), FaceOf(if acked.controlGeneration == before && queueFull then FailTerminal(acked)
                                   else acked), id)
  {
    hide QueueAcknowledgment, FailTerminal, Calm;
    var acked := QueueAcknowledgment(s, sequence);
    QueueAcknowledgmentCalm(s, sequence, id);
    FailTerminalCalm(acked, id);
    Then(FaceOf(s), FaceOf(acked), FaceOf(FailTerminal(acked)), id);
  }

  lemma AcceptMessageCalm(s: State, message: Inbound, queueFull: bool, id: RequestId)
    requires !ReplyFor(s.pending, message, id)
    ensures Calm(FaceOf(s), FaceOf(AcceptMessage(s, message, queueFull)), id)
  {
    hide QueueAcknowledgment, FailTerminal, Settle, FindTid, Trimmed, Calm;
    var trimmed := TrimReplay(s.(lastInbound := message.sequence), message.acknowledged);
    var index := FindTid(trimmed.pending, message.tid);
    if index < |trimmed.pending| && !trimmed.pending[index].control {
      var settled := Settle(trimmed, map[trimmed.pending[index].id := Delivery(Replied, AtReply)]);
      assert id != trimmed.pending[index].id;
      SettleCalm(trimmed, map[trimmed.pending[index].id := Delivery(Replied, AtReply)], id);
      QueueAcknowledgmentCalm(settled, message.sequence, id);
      Then(FaceOf(s), FaceOf(settled), FaceOf(QueueAcknowledgment(settled, message.sequence)), id);
    } else {
      UnsolicitedCalm(trimmed, message.sequence, queueFull, s.controlGeneration, id);
    }
  }

  lemma HandleMessageCalm(s: State, message: Inbound, queueFull: bool, id: RequestId)
    requires !ReplyFor(s.pending, message, id)
    ensures Calm(FaceOf(s), FaceOf(HandleMessage(s, message, queueFull)), id)
  {
    hide AcceptMessage, HandleFault, Calm, ReplyFor;
    Still(FaceOf(s), id);
    HandleFaultCalm(s, id);
    AcceptMessageCalm(s, message, queueFull, id);
  }

  lemma HandleResetCalm(s: State, full: bool, cookieOk: bool, id: RequestId)
    ensures Calm(FaceOf(s), FaceOf(HandleReset(s, full, cookieOk)), id)
  {
    hide InvalidateControls, FailTerminal, FailAll, PrepareReplay, QueueControl, Calm;
    var quiet := s.(pendingAck := 0);
    var cut := InvalidateControls(quiet).(serverCookie := 0, lossy := false, connectSequence := 0, lastInbound := 0);
    InvalidateCalm(quiet, id);
    FailTerminalCalm(cut, id);
    Then(FaceOf(s), FaceOf(cut), FaceOf(FailTerminal(cut)), id);
    var renumbered := cut.(nextOutbound := 1, sequenceExhausted := false, nextTid := 1, tidExhausted := false);
    FailAllCalm(renumbered, id);
    PrepareReplayCalm(cut, id);
    var reset := if full then FailAll(renumbered) else PrepareReplay(cut);
    Then(FaceOf(s), FaceOf(cut), FaceOf(reset), id);
    QueueControlCalm(reset.(phase := Connecting), ClientIdentFrame, id);
    Then(FaceOf(s), FaceOf(reset), FaceOf(QueueControl(reset.(phase := Connecting), ClientIdentFrame)), id);
  }

  lemma HandleServerIdentCalm(s: State, ident: Control, id: RequestId)
    requires ident.ServerIdent?
    ensures Calm(FaceOf(s), FaceOf(HandleServerIdent(s, ident)), id)
  {
    hide HandleFault, FailTerminal, FailSentUnknown, Calm;
    var counted := s.(transitions := s.transitions + 1);
    HandleFaultCalm(s, id);
    HandleFaultCalm(counted, id);
    FailTerminalCalm(counted, id);
    FailSentCalm(counted.(serverCookie := ident.cookie, lossy := ident.isLossy, reconnectAttempts := 0), id);
  }

  lemma HandleReconnectOkCalm(s: State, sequence: nat, id: RequestId)
    ensures Calm(FaceOf(s), FaceOf(HandleReconnectOk(s, sequence)), id)
  {
    hide HandleFault, PrepareReplay, Trimmed, Calm;
    HandleFaultCalm(s, id);
    PrepareReplayCalm(TrimReplay(s, sequence), id);
  }

  lemma HandleTransitionCalm(s: State, control: Control, id: RequestId)
    requires control.SessionReset? || control.SessionRetry? || control.SessionRetryGlobal? || control.ReconnectOk?
    ensures Calm(FaceOf(s), FaceOf(HandleTransition(s, control)), id)
  {
    hide HandleFault, HandleReset, FailTerminal, SendReconnect, HandleReconnectOk, Calm;
    var counted := s.(transitions := s.transitions + 1);
    HandleFaultCalm(s, id);
    HandleFaultCalm(counted, id);
    FailTerminalCalm(counted, id);
    match control
    case SessionReset(full, cookieOk) => HandleResetCalm(counted, full, cookieOk, id);
    case SessionRetry(sequence) => SendReconnectCalm(counted.(connectSequence := sequence + 1), id);
    case SessionRetryGlobal(_) => SendReconnectCalm(counted, id);
    case ReconnectOk(sequence) => HandleReconnectOkCalm(counted, sequence, id);
  }

  lemma HandleControlCalm(s: State, control: Control, id: RequestId)
    ensures Calm(FaceOf(s), FaceOf(HandleControl(s, control)), id)
  {
    hide HandleFault, HandleTransition, HandleServerIdent, FailTerminal, QueueControl, Trimmed, Calm;
    Still(FaceOf(s), id);
    HandleFaultCalm(s, id);
    match control
    case Ack(_) =>
    case Keepalive => QueueControlCalm(s, KeepaliveAckFrame, id);
    case KeepaliveAck =>
    case Wait => HandleFaultCalm(s.(transitions := s.transitions + 1, phase := Waiting), id);
    case ServerIdent(_, _, _, _) => HandleServerIdentCalm(s, control, id);
    case MissingFeatures => FailTerminalCalm(s, id);
    case Unexpected =>
    case _ => HandleTransitionCalm(s, control, id);
  }

  // ---------------------------------------------------------------- transports

  lemma OpenTransportCalm(s: State, cookieOk: bool, id: RequestId)
    ensures Calm(FaceOf(s), FaceOf(OpenTransport(s, cookieOk)), id)
  {
    hide FailTerminal, SendReconnect, QueueControl, Calm;
    FailTerminalCalm(s, id);
    SendReconnectCalm(StartTransport(s.(connectSequence := s.connectSequence + 1), Reconnecting), id);
    QueueControlCalm(StartTransport(s.(connectSequence := 0), Connecting), ClientIdentFrame, id);
  }

  lemma HandleConnectedCalm(s: State, generation: nat, connection: Connection, id: RequestId)
    ensures Calm(FaceOf(s), FaceOf(HandleConnected(s, generation, connection)), id)
  {
    hide BeginReconnect, FailTerminal, ResetForNewIdentity, OpenTransport, Calm;
    Still(FaceOf(s), id);
    var idle := s.(connectPending := false);
    BeginReconnectCalm(idle, id);
    var open := idle.(terminal := false, transitions := 0);
    FailTerminalCalm(open, id);
    var known := open.(connectedOnce := true);
    FailTerminalCalm(known, id);
    if connection.Transport? {
      OpenTransportCalm(known, connection.cookieOk, id);
      var reborn := ResetForNewIdentity(known);
      ResetIdentityCalm(known, id);
      OpenTransportCalm(reborn, connection.cookieOk, id);
      Then(FaceOf(s), FaceOf(reborn), FaceOf(OpenTransport(reborn, connection.cookieOk)), id);
    }
  }

  lemma StopCalm(s: State, id: RequestId)
    ensures Calm(FaceOf(s), FaceOf(Stop(s)), id)
  {
    hide FailAll, InvalidateControls, Calm;
    var cut := InvalidateControls(s).(phase := Stopped);
    InvalidateCalm(s, id);
    FailAllCalm(cut, id);
    Then(FaceOf(s), FaceOf(cut), FaceOf(FailAll(cut)), id);
  }

  // ---------------------------------------------------------------- steps and runs

  /** The event is a message that answers this request. */
  ghost predicate Answers(s: State, event: Event, id: RequestId) {
    event.MessageEvent? && ReplyFor(s.pending, event.message, id)
  }

  lemma ReadFrameCalm(s: State, event: Event, id: RequestId)
    requires event.MessageEvent? || event.ControlEvent? || event.ReadErrorEvent?
    requires !Answers(s, event, id)
    ensures Calm(FaceOf(s), FaceOf(ReadFrame(s, event)), id)
  {
    hide HandleMessage, HandleControl, FailTerminal, HandleFault, Calm, ReplyFor;
    Still(FaceOf(s), id);
    match event
    case MessageEvent(_, message, queueFull) => HandleMessageCalm(s, message, queueFull, id);
    case ControlEvent(_, control) => HandleControlCalm(s, control, id);
    case ReadErrorEvent(_, _) =>
      FailTerminalCalm(s, id);
      HandleFaultCalm(s, id);
  }

  /** Apart from the message that answers it and the dispatch that gives it up, no event gives a
      request anything but a plain result, and none touches an answer. */
  lemma StepCalm(s: State, event: Event, id: RequestId)
    requires Invariant(s) && Offered(s, event) && (event.SubmitEvent? ==> id in s.commands)
    requires !Answers(s, event, id) && !Redispatched(s, event, id)
    ensures Sends(FaceOf(s), FaceOf(Step(s, event)), id)
  {
    hide Invariant, Dispatch, Submit, Cancel, Stop, ReadFrame, HandleWritten, HandleFault, HandleConnected,
        FlushAcknowledgment, Calm, Sends, Answers, Redispatched;
    KnownTurns(s);
    Still(FaceOf(s), id);
    match event {
      case DispatchEvent(cancelled) => DispatchSends(s, cancelled, id);
      case SubmitEvent(command, cancelled) => SubmitCalm(s, command, cancelled, id);
      case CancelEvent(target) => CancelCalm(s, target, id);
      case StopEvent => StopCalm(s, id);
      case MessageEvent(_, _, _) => ReadFrameCalm(s, event, id);
      case ControlEvent(_, _) => ReadFrameCalm(s, event, id);
      case ReadErrorEvent(_, _) => ReadFrameCalm(s, event, id);
      case WrittenEvent(generation, request, failed) => HandleWrittenCalm(s, generation, request, failed, id);
      case FaultEvent(_) => HandleFaultCalm(s, id);
      case RenewalEvent(_) =>
      case ConnectedEvent(generation, connection) => HandleConnectedCalm(s, generation, connection, id);
      case AckTimerEvent => FlushCalm(s, id);
    }
    if !event.DispatchEvent? || s.phase == Stopped { CalmSends(FaceOf(s), FaceOf(Step(s, event)), id); }
  }

  lemma KnownTurns(s: State)
    requires Invariant(s)
    ensures s.admissions.Keys <= s.commands.Keys && s.nextTid <= MAX_UINT64
  {
    hide Shaped, Listed, Known, Numbered, Ordered, Ahead, RowsBounded, InTurn, QueueBounded, Quiet;
  }

  lemma GoneIsUnanswered(rows: seq<Entry>, message: Inbound, id: RequestId)
    requires id !in Ids(rows)
    ensures !ReplyFor(rows, message, id)
  {
  }

  lemma GoneIsNotNext(s: State, event: Event, id: RequestId)
    requires id !in Ids(s.pending)
    ensures !Redispatched(s, event, id)
  {
    hide NextWrite, SumOf;
  }

  lemma StepOf(states: seq<State>, events: seq<Event>, i: nat)
    requires IsRun(states, events) && i < |events|
    ensures |states| == |events| + 1
    ensures states[i].nextTid <= MAX_UINT64 && Offered(states[i], events[i])
            && states[i + 1] == Step(states[i], events[i])
    ensures Invariant(states[i]) && Invariant(states[i + 1])
  {
    hide Step, Offered, Start, Invariant;
    RunKeeps(states, events, i);
    RunKeeps(states, events, i + 1);
  }

  /** Main theorem: once a request has its answer, nothing that happens later changes it. */
  lemma {:induction false} AnswerStays(states: seq<State>, events: seq<Event>, i: nat, j: nat, id: RequestId)
    requires IsRun(states, events) && i <= j < |states|
    requires id in states[i].commands && id !in Ids(states[i].pending)
    ensures id in states[j].commands && id !in Ids(states[j].pending)
    ensures Deliveries(states[j].results, id) == Deliveries(states[i].results, id)
    decreases j - i
  {
    hide Step, Start, Ids, Offered, Invariant, Redispatched;
    if i < j {
      AnswerStays(states, events, i, j - 1, id);
      StepOf(states, events, j - 1);
      var s, event := states[j - 1], events[j - 1];
      if event.MessageEvent? { GoneIsUnanswered(s.pending, event.message, id); }
      GoneIsNotNext(s, event, id);
      StepCalm(s, event, id);
    }
  }

  // ---------------------------------------------------------------- replies

  lemma HasNoResult(s: State, id: RequestId)
    requires Invariant(s) && id in Ids(s.pending)
    ensures id in s.commands && Deliveries(s.results, id) == []
  {
    hide Shaped, Listed, Known, Numbered, Ordered, Ahead, RowsBounded, QueueBounded, Quiet, InTurn, Admissible;
    WaitsAt(HistoryOf(s), s.pending, id);
  }

  /** A request given up at redispatch gets no reply. */
  lemma GivenUpResult(s: State, event: Event, id: RequestId)
    requires Invariant(s) && Redispatched(s, event, id)
    ensures var t := Step(s, event);
      && id !in Ids(t.pending) && Deliveries(t.results, id) == [Delivery(Failed(false), AtRedispatch)]
      && t.dispatched == s.dispatched
  {
    hide Invariant, Settle, NextWrite, SumOf;
    KnownTurns(s);
    var index := NextWrite(s.pending);
    Unscoped(s, index);
    var deliver := map[id := Delivery(Failed(false), AtRedispatch)];
    assert Step(s, event) == Settle(s, deliver);
    SettlesOne(s, index, deliver);
  }

  lemma Unscoped(s: State, index: nat)
    requires Invariant(s) && index < |s.pending| && !s.pending[index].control
    ensures s.pending[index].generation == 0 && Known(HistoryOf(s), s.pending)
  {
    hide Shaped, Listed, Numbered, Ordered, Ahead, RowsBounded, QueueBounded, Quiet, InTurn, Admissible;
    assert Waits(HistoryOf(s), s.pending[index]);
  }

  lemma SettlesOne(s: State, i: nat, deliver: map<RequestId, Delivery>)
    requires Known(HistoryOf(s), s.pending) && i < |s.pending| && deliver.Keys == {s.pending[i].id}
    ensures var t := Settle(s, deliver);
      && s.pending[i].id !in Ids(t.pending) && Deliveries(t.results, s.pending[i].id) == [deliver[s.pending[i].id]]
      && t.dispatched == s.dispatched
  {
    hide Drop, Ids, Delivered, DropIds, Answered;
    assert Waits(HistoryOf(s), s.pending[i]);
    DropKeepsIds(s.pending, deliver.Keys);
    DeliveriesAfter(s.results, deliver, s.pending[i].id);
  }

  /** Main theorem: a request is replied to by a message with its own transaction, and by nothing else. */
  lemma ReplyIsItsOwn(states: seq<State>, events: seq<Event>, i: nat, id: RequestId)
    requires IsRun(states, events) && i < |events| && id in Ids(states[i].pending)
    requires Deliveries(states[i + 1].results, id) != [] && Deliveries(states[i + 1].results, id)[0].outcome.Replied?
    ensures Answers(states[i], events[i], id)
  {
    hide IsRun, Step, Invariant, Answers, Offered, Redispatched, Onward;
    StepOf(states, events, i);
    HasNoResult(states[i], id);
    if Redispatched(states[i], events[i], id) {
      GivenUpResult(states[i], events[i], id);
    } else if !Answers(states[i], events[i], id) {
      StepCalm(states[i], events[i], id);
    }
  }

  /** The message is in order: new, and acknowledging nothing that was never sent. */
  predicate Acceptable(s: State, event: Event)
    requires event.MessageEvent?
  {
    && s.phase == Ready && !s.terminal && event.generation == s.generation
    && !BadAcknowledgment(s, event.message.acknowledged) && event.message.sequence > s.lastInbound
  }

  /** And a message in order does reply to the request whose transaction it carries. */
  lemma ReplyArrives(s: State, event: Event, id: RequestId)
    requires Invariant(s) && event.MessageEvent? && Acceptable(s, event) && ReplyFor(s.pending, event.message, id)
    ensures var t := Step(s, event);
      && id !in Ids(t.pending) && Deliveries(t.results, id) == [Delivery(Replied, AtReply)]
      && t.dispatched == s.dispatched
  {
    hide QueueAcknowledgment, Settle, FindTid, Trimmed, HandleFault, FailTerminal, Invariant, Onward;
    var trimmed := TrimReplay(s.(lastInbound := event.message.sequence), event.message.acknowledged);
    var i :| 0 <= i < |s.pending| && s.pending[i].id == id && s.pending[i].tid == event.message.tid
        && !s.pending[i].control;
    Unscoped(s, i);
    assert Shaped(s.pending) by { ShapedRows(s); }
    FoundTid(s.pending, event.message.tid, i);
    var deliver := map[id := Delivery(Replied, AtReply)];
    var settled := Settle(trimmed, deliver);
    assert HistoryOf(trimmed) == HistoryOf(s) && trimmed.pending == s.pending;
    SettlesOne(trimmed, i, deliver);
    QueueAcknowledgmentCalm(settled, event.message.sequence, id);
  }

  lemma ShapedRows(s: State)
    requires Invariant(s)
    ensures Shaped(s.pending)
  {
    hide Listed, Known, Numbered, Ordered, Ahead, RowsBounded, QueueBounded, Quiet, InTurn, Admissible;
  }

  lemma FoundTid(rows: seq<Entry>, tid: nat, i: nat)
    requires Shaped(rows) && i < |rows| && rows[i].tid == tid
    ensures FindTid(rows, tid) == i
  {
    var index := FindTid(rows, tid);
    assert rows[i].tid in Tids(rows);
  }

  // ---------------------------------------------------------------- unknown outcomes

  /** Whatever a message does to the request it answers, it is no silent failure. */
  lemma AnsweredResult(s: State, event: Event, id: RequestId)
    requires Invariant(s) && Offered(s, event) && Answers(s, event, id)
    ensures var t := Step(s, event);
      && t.dispatched == s.dispatched
      && (Deliveries(t.results, id) != [] ==> Deliveries(t.results, id)[0].site != AtRedispatch)
  {
    hide Invariant, HandleFault, AcceptMessage, Onward;
    var i :| 0 <= i < |s.pending| && s.pending[i].id == id;
    assert id in Ids(s.pending);
    HasNoResult(s, id);
    if Acceptable(s, event) {
      ReplyArrives(s, event, id);
    } else {
      HandleFaultCalm(s, id);
    }
  }

  /** What leaving the table leaves behind, whichever event makes the request leave. */
  lemma LeavesAs(s: State, event: Event, id: RequestId)
    requires Invariant(s) && Offered(s, event) && id in Ids(s.pending)
    ensures var t := Step(s, event);
      && (id !in Ids(t.pending) ==> (id in t.dispatched <==> id in s.dispatched))
      && (Deliveries(t.results, id) != [] ==>
            (Deliveries(t.results, id)[0].site == AtRedispatch <==> Redispatched(s, event, id)))
  {
    hide Invariant, Step, Answers, Redispatched, Offered, Onward;
    HasNoResult(s, id);
    if Redispatched(s, event, id) {
      GivenUpResult(s, event, id);
    } else if Answers(s, event, id) {
      AnsweredResult(s, event, id);
    } else {
      StepCalm(s, event, id);
    }
  }

  /** A request that has left is answered truthfully. */
  lemma Truthful(s: State, id: RequestId)
    requires Invariant(s) && id in s.commands && id !in Ids(s.pending)
    ensures id in s.results && |s.results[id]| == 1 && Honest(HistoryOf(s), id, s.results[id][0])
  {
    hide Shaped, Listed, Numbered, Ordered, Ahead, RowsBounded, QueueBounded, Quiet, InTurn, Admissible;
    assert Answered(HistoryOf(s), id);
  }

  /** The application flag of a command does not change while it is in the table. */
  lemma StaysApplication(s: State, event: Event, id: RequestId)
    requires Invariant(s) && Offered(s, event) && id in s.commands
    ensures id in Step(s, event).commands && Step(s, event).commands[id] == s.commands[id]
  {
    hide Invariant, Step, Offered;
    KnownTurns(s);
    StepOnward(s, event);
    assert Keep(s.commands, Step(s, event).commands);
  }

  /** Main theorem: when a failed application request leaves the table, its outcome is reported as
      unknown if and only if it had been handed to a writer and the event is not a dispatch that
      finds it next, with nothing holding the writer back and its context ended. */
  lemma OutcomeUnknownIsExact(states: seq<State>, events: seq<Event>, i: nat, id: RequestId)
    requires IsRun(states, events) && i < |events|
    requires id in Ids(states[i].pending) && id !in Ids(states[i + 1].pending)
    requires id in states[i].commands && !states[i].commands[id].control
    ensures id in states[i + 1].results && |states[i + 1].results[id]| == 1
    ensures var outcome := states[i + 1].results[id][0].outcome;
      outcome.Failed? ==>
        (outcome.unknown <==> id in states[i].dispatched && !Redispatched(states[i], events[i], id))
  {
    hide IsRun, Step, Invariant, Redispatched, Offered;
    StepOf(states, events, i);
    StaysApplication(states[i], events[i], id);
    Truthful(states[i + 1], id);
    LeavesAs(states[i], events[i], id);
  }

  /** Main theorem: a request that was handed to a writer fails without its outcome being called
      unknown exactly when such a dispatch meets it. */
  lemma SilentFailureIsExact(states: seq<State>, events: seq<Event>, i: nat, id: RequestId)
    requires IsRun(states, events) && i < |events| && id in Ids(states[i].pending) && id in states[i].dispatched
    requires id in states[i].commands && !states[i].commands[id].control
    ensures var results := Deliveries(states[i + 1].results, id);
      (results != [] && results[0].outcome == Failed(false)) <==> Redispatched(states[i], events[i], id)
  {
    hide IsRun, Step, Invariant, Redispatched, Offered;
    StepOf(states, events, i);
    if Redispatched(states[i], events[i], id) {
      GivenUpResult(states[i], events[i], id);
    } else if id !in Ids(states[i + 1].pending) {
      OutcomeUnknownIsExact(states, events, i, id);
    } else {
      HasNoResult(states[i + 1], id);
    }
  }

  // ---------------------------------------------------------------- admission

  /** No event changes a turn that was given, and a turn given later is a later one. */
  lemma StepOnward(s: State, event: Event)
    requires Invariant(s) && Offered(s, event)
    ensures Onward(FaceOf(s), FaceOf(Step(s, event)))
  {
    hide Invariant, Step, Ids, Offered;
    if event.SubmitEvent? {
      SubmitOnward(s, event);
    } else {
      var id := Outsider(s.pending);
      if event.MessageEvent? { GoneIsUnanswered(s.pending, event.message, id); }
      GoneIsNotNext(s, event, id);
      StepCalm(s, event, id);
    }
  }

  /** There is always an id that no row has. */
  lemma {:induction false} Outsider(rows: seq<Entry>) returns (id: RequestId)
    ensures id !in Ids(rows) && forall i :: 0 <= i < |rows| ==> rows[i].id < id
  {
    if rows == [] {
      id := 0;
    } else {
      id := Outsider(rows[..|rows| - 1]);
      if id <= rows[|rows| - 1].id { id := rows[|rows| - 1].id + 1; }
    }
  }

  lemma SubmitOnward(s: State, event: Event)
    requires Invariant(s) && event.SubmitEvent? && Offered(s, event)
    ensures Onward(FaceOf(s), FaceOf(Step(s, event)))
  {
    hide Invariant, Submit, Onward;
    KnownTurns(s);
    OnwardStill(FaceOf(s));
    AdmissionOnward(s, event.command, event.cancelled);
  }

  lemma AdmissionOnward(s: State, command: Command, cancelled: bool)
    requires s.nextTid <= MAX_UINT64 && command.id !in s.commands && s.admissions.Keys <= s.commands.Keys
    ensures Onward(FaceOf(s), FaceOf(Submit(s, command, cancelled)))
  {
    hide Refused, TakeTid, FailTerminal, Onward, Admit, Record, Tids;
    var f, refusal := FaceOf(s), [Delivery(Failed(false), AtSubmit)];
    RecordTurns(s, command, refusal);
    OnwardBy(f, FaceOf(Record(s, command, refusal)), command.id);
    AdmitTurns(s, command, command.tid);
    OnwardBy(f, FaceOf(Admit(Record(s, command, []), command, command.tid)), command.id);
    var taken := TakeTid(Tids(s.pending), s.nextTid, s.tidExhausted);
    var numbered := s.(nextTid := taken.next, tidExhausted := taken.exhausted);
    if taken.tid.None? {
      FailTerminalTurns(numbered);
      RecordTurns(FailTerminal(numbered), command, refusal);
      OnwardBy(f, FaceOf(Record(FailTerminal(numbered), command, refusal)), command.id);
    } else {
      AdmitTurns(numbered, command, taken.tid.value);
      OnwardBy(f, FaceOf(Admit(Record(numbered, command, []), command, taken.tid.value)), command.id);
    }
  }

  lemma RecordTurns(s: State, command: Command, deliveries: seq<Delivery>)
    ensures Record(s, command, deliveries).admissions == s.admissions
            && Record(s, command, deliveries).admitted == s.admitted
    ensures command.id !in s.commands ==> Keep(s.commands, Record(s, command, deliveries).commands)
  {
  }

  lemma AdmitTurns(s: State, command: Command, tid: nat)
    ensures var t := Admit(Record(s, command, []), command, tid);
      && t.admissions == s.admissions[command.id := s.admitted] && t.admitted == s.admitted + 1
      && (command.id !in s.commands ==> Keep(s.commands, t.commands))
  {
  }

  lemma OnwardBy(f: Face, g: Face, id: RequestId)
    requires id !in f.admissions && Keep(f.commands, g.commands)
    requires (g.admissions == f.admissions && g.admitted == f.admitted)
          || (g.admissions == f.admissions[id := f.admitted] && g.admitted == f.admitted + 1)
    ensures Onward(f, g)
  {
  }

  lemma FailTerminalTurns(s: State)
    ensures FailTerminal(s).admissions == s.admissions && FailTerminal(s).admitted == s.admitted
    ensures FailTerminal(s).commands == s.commands
  {
    hide Chosen, Drop, DropIds, Delivered;
  }

  /** Over any run, who is admitted later has a later turn. */
  lemma {:induction false} LaterTurn(states: seq<State>, events: seq<Event>, i: nat, j: nat, early: RequestId,
                                     late: RequestId)
    requires IsRun(states, events) && i <= j < |states|
    requires early in states[i].admissions && late !in states[i].admissions && late in states[j].admissions
    ensures early in states[j].admissions && states[j].admissions[early] == states[i].admissions[early]
    ensures states[j].admissions[early] < states[j].admissions[late]
  {
    hide IsRun, Step, Start, Ids, Offered;
    RunOnward(states, events, i, j);
    RunKeeps(states, events, i);
    assert Admissible(states[i].admissions, states[i].admitted, states[i].commands) by {
      hide Shaped, Listed, Known, Numbered, Ordered, Ahead, RowsBounded, InTurn, QueueBounded, Quiet;
    }
    hide Invariant;
  }

  lemma {:induction false} RunOnward(states: seq<State>, events: seq<Event>, i: nat, j: nat)
    requires IsRun(states, events) && i <= j < |states|
    ensures Onward(FaceOf(states[i]), FaceOf(states[j]))
    decreases j - i
  {
    hide IsRun, Step, Start, Offered, Invariant, Onward;
    if i < j {
      assert |states| == |events| + 1 by { RunLength(states, events); }
      RunOnward(states, events, i, j - 1);
      StepOf(states, events, j - 1);
      StepOnward(states[j - 1], events[j - 1]);
      OnwardThen(FaceOf(states[i]), FaceOf(states[j - 1]), FaceOf(states[j]));
    } else {
      assert Onward(FaceOf(states[i]), FaceOf(states[i])) by { OnwardStill(FaceOf(states[i])); }
    }
  }

  lemma RunLength(states: seq<State>, events: seq<Event>)
    requires IsRun(states, events)
    ensures |states| == |events| + 1
  {
  }

  lemma OnwardStill(f: Face)
    ensures Onward(f, f)
  {
  }
}
