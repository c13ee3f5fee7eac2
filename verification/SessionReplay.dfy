/** What the replay list is for: a request that was written and not acknowledged is written again. */
module SessionReplay {
  import opened Common
  import opened SessionState
  import opened SessionSteps
  import opened SessionInvariant
  import opened SessionRuns

  // ---------------------------------------------------------------- what is kept for replay

  /** The request is in the table under this sequence, marked as sent. */
  ghost predicate Marked(rows: seq<Entry>, id: RequestId, sequence: nat) {
    exists k :: 0 <= k < |rows| && rows[k].id == id && rows[k].sequence == sequence && rows[k].sent
  }

  /** Sent and not listed: nothing will write it again. */
  ghost predicate Forgotten(s: State, id: RequestId, sequence: nat) {
    Marked(s.pending, id, sequence) && id !in s.replay
  }

  /** What is marked as sent was so before, and is listed as before; nothing else becomes listed. */
  ghost predicate Eases(s: State, t: State) {
    && (forall id, n: nat :: Marked(t.pending, id, n) ==>
        Marked(s.pending, id, n) && (id in t.replay <==> id in s.replay))
    && (forall id :: id in t.replay ==> id in s.replay)
  }

  lemma Then(s: State, t: State, u: State)
    requires Eases(s, t) && Eases(t, u)
    ensures Eases(s, u)
  {
    hide Marked;
  }

  // ---------------------------------------------------------------- settling

  lemma {:induction false} DropIdsIn(list: seq<RequestId>, ids: set<RequestId>, id: RequestId)
    ensures id in DropIds(list, ids) <==> id in list && id !in ids
  {
    if list != [] {
      DropIdsIn(list[..|list| - 1], ids, id);
      assert list == list[..|list| - 1] + [list[|list| - 1]];
    }
  }

  lemma MarkedAfterDrop(rows: seq<Entry>, ids: set<RequestId>, id: RequestId, n: nat)
    requires Marked(Drop(rows, ids), id, n)
    ensures Marked(rows, id, n) && id !in ids
  {
    hide Drop;
    var rest := Drop(rows, ids);
    var k :| 0 <= k < |rest| && rest[k].id == id && rest[k].sequence == n && rest[k].sent;
    var a := DropSource(rows, ids, k);
  }

  lemma SettleEases(s: State, deliver: map<RequestId, Delivery>)
    ensures Eases(s, Settle(s, deliver))
  {
    hide Drop, DropIds, Marked, Delivered;
    var t := Settle(s, deliver);
    forall id, n: nat | Marked(t.pending, id, n)
      ensures Marked(s.pending, id, n) && (id in t.replay <==> id in s.replay)
    {
      MarkedAfterDrop(s.pending, deliver.Keys, id, n);
      DropIdsIn(s.replay, deliver.Keys, id);
    }
    forall id | id in t.replay ensures id in s.replay {
      DropIdsIn(s.replay, deliver.Keys, id);
    }
  }

  lemma InvalidateEases(s: State)
    ensures Eases(s, InvalidateControls(s))
  {
    hide Settle, Chosen, Marked;
    SettleEases(s, Chosen(s.pending, ScopedRow, NoRow, AtInvalidate));
  }

  lemma FailAllEases(s: State)
    ensures Eases(s, FailAll(s))
  {
    hide Settle, Chosen, Marked;
    SettleEases(s, Chosen(s.pending, AnyRow, ExecutedRow, AtFailAll));
  }

  lemma FailSentLeavesNone(s: State, id: RequestId, n: nat)
    ensures !Marked(FailSentUnknown(s).pending, id, n)
  {
    hide Drop, DropIds, Chosen, Delivered;
    var deliver := Chosen(s.pending, SentRow, AnyRow, AtFailSent);
    var rest := Drop(s.pending, deliver.Keys);
    forall k | 0 <= k < |rest| ensures !rest[k].sent {
      var a := DropSource(s.pending, deliver.Keys, k);
      if s.pending[a].sent { ChosenCovers(s.pending, SentRow, AnyRow, AtFailSent, a); }
    }
  }

  lemma FailSentEases(s: State)
    ensures Eases(s, FailSentUnknown(s))
  {
    hide SettleWhere, Marked;
    forall id, n: nat | Marked(FailSentUnknown(s).pending, id, n) ensures false { FailSentLeavesNone(s, id, n); }
  }

  /** And nothing that is listed remains marked as sent. */
  lemma PrepareReplayEases(s: State)
    ensures Eases(s, PrepareReplay(s))
    ensures forall id, n: nat :: Marked(PrepareReplay(s).pending, id, n) ==> id !in s.replay
  {
    var t := PrepareReplay(s);
    forall id, n: nat | Marked(t.pending, id, n) ensures Marked(s.pending, id, n) && id !in s.replay {
      var k :| 0 <= k < |t.pending| && t.pending[k].id == id && t.pending[k].sequence == n && t.pending[k].sent;
      assert s.pending[k].id == id;
    }
  }

  lemma FailAllLeavesNone(s: State)
    ensures FailAll(s).pending == []
  {
    FailAllFrame(s);
    ChosenAll(s.pending);
    DropAll(s.pending, Chosen(s.pending, AnyRow, ExecutedRow, AtFailAll).Keys);
  }

  // ---------------------------------------------------------------- between transports

  /** Whatever is listed is still to be written again. */
  ghost predicate Rewound(s: State) {
    forall id, n: nat :: Marked(s.pending, id, n) ==> id !in s.replay
  }

  /** Outside of a ready transport everything listed is to be written again; a transport is
      asked for only when there is none. */
  ghost predicate Resting(s: State) {
    && (s.connectPending && s.phase != Stopped ==> s.phase == Disconnected)
    && (s.phase != Ready && s.phase != Stopped ==> Rewound(s))
  }

  /** The step eases the table and keeps the rest between transports. */
  ghost predicate Settles(s: State, t: State) {
    Eases(s, t) && (Resting(s) ==> Resting(t))
  }

  lemma Still(s: State)
    ensures Settles(s, s)
  {
    hide Marked;
  }

  lemma ThenSettles(s: State, t: State, u: State)
    requires Settles(s, t) && Settles(t, u)
    ensures Settles(s, u)
  {
    hide Eases, Resting;
    Then(s, t, u);
  }

  lemma EasesRewound(s: State, t: State)
    requires Eases(s, t) && Rewound(s)
    ensures Rewound(t)
  {
    hide Marked;
  }

  /** Only rows and list matter. */
  lemma SameTable(s: State, t: State, u: State)
    requires Eases(s, t) && u.pending == t.pending && u.replay == t.replay
    ensures Eases(s, u)
  {
    hide Marked;
  }

  lemma SameRewound(s: State, t: State)
    requires Rewound(s) && t.pending == s.pending && t.replay == s.replay
    ensures Rewound(t)
  {
    hide Marked;
  }

  /** An easing step that leaves phase and connector alone. */
  lemma EasesSettles(s: State, t: State)
    requires Eases(s, t) && t.phase == s.phase && t.connectPending == s.connectPending
    ensures Settles(s, t)
  {
    hide Eases, Rewound;
    if Rewound(s) { EasesRewound(s, t); }
  }

  /** A step that leaves table, list, phase and connector alone. */
  lemma SameSettles(s: State, t: State)
    requires t.pending == s.pending && t.replay == s.replay
    requires t.phase == s.phase && t.connectPending == s.connectPending
    ensures Settles(s, t)
  {
    hide Marked;
  }

  // ---------------------------------------------------------------- faults

  lemma FailAllRewinds(s: State)
    ensures Rewound(FailAll(s))
  {
    hide FailAll;
    FailAllLeavesNone(s);
  }

  lemma ResetIdentityEases(s: State)
    ensures Eases(s, ResetForNewIdentity(s))
  {
    hide FailAll, Marked;
    FailAllEases(s.(pendingAck := 0, serverCookie := 0, lossy := false, connectSequence := 0,
                    lastInbound := 0, nextOutbound := 1, sequenceExhausted := false,
                    nextTid := 1, tidExhausted := false));
  }

  lemma FailTerminalEases(s: State)
    ensures Eases(s, FailTerminal(s))
    ensures Rewound(FailTerminal(s)) && !FailTerminal(s).connectPending
  {
    hide SettleWhere, Marked;
    var cut := InvalidateControls(s);
    var dead := cut.(pendingAck := 0, generation := s.generation + 1, terminal := true,
                     linked := false, writeBusy := false, controlQueue := [], connectPending := false);
    InvalidateEases(s);
    FailAllEases(dead);
    FailAllRewinds(dead);
    SettleWhereFrame(dead, AnyRow, ExecutedRow, AtFailAll);
    SameTable(s, cut, dead);
    Then(s, dead, FailAll(dead));
  }

  lemma SettleWhereFrame(s: State, chosen: Entry -> bool, unknown: Entry -> bool, site: Site)
    ensures var t := SettleWhere(s, chosen, unknown, site);
            t == s.(pending := t.pending, replay := t.replay, results := t.results)
  {
    hide Drop, DropIds, Chosen, Delivered;
  }

  lemma FailTerminalSettles(s: State)
    ensures Settles(s, FailTerminal(s))
  {
    hide Eases, Rewound, FailAll, InvalidateControls;
    FailTerminalEases(s);
    assert FailTerminal(s).phase == Disconnected;
  }

  lemma FailTerminalPhase(s: State)
    ensures FailTerminal(s).phase == Disconnected
  {
    hide FailAll, InvalidateControls;
  }

  lemma BeginReconnectEases(s: State)
    requires s.phase == Disconnected && Rewound(s)
    ensures Eases(s, BeginReconnect(s)) && Resting(BeginReconnect(s))
  {
    hide FailTerminal, Eases, Rewound;
    FailTerminalEases(s);
    FailTerminalPhase(s);
    Still(s);
    var asked := s.(reconnectAttempts := s.reconnectAttempts + 1, connectPending := true,
                    generation := s.generation + 1);
    SameTable(s, s, asked);
    SameRewound(s, asked);
  }

  lemma SettleFaultEases(s: State)
    ensures Eases(s, SettleFault(s)) && Rewound(SettleFault(s))
  {
    hide SettleWhere, Marked;
    if s.lossy {
      var sent := FailSentUnknown(s);
      FailSentEases(s);
      ResetIdentityEases(sent);
      Then(s, sent, ResetForNewIdentity(sent));
      assert Rewound(sent);
      EasesRewound(sent, ResetForNewIdentity(sent));
    } else if s.config.policy == FailPending {
      FailAllEases(s);
      FailAllRewinds(s);
    } else if s.serverCookie == 0 {
      FailSentEases(s);
    } else {
      PrepareReplayEases(s);
    }
  }

  lemma HandleFaultSettles(s: State)
    ensures Settles(s, HandleFault(s))
  {
    hide InvalidateControls, SettleFault, BeginReconnect, Eases, Resting, Rewound;
    Still(s);
    var cut := InvalidateControls(s).(pendingAck := 0, linked := false, writeBusy := false, controlQueue := []);
    var settled := SettleFault(cut).(phase := Disconnected);
    InvalidateEases(s);
    SameTable(s, InvalidateControls(s), cut);
    SettleFaultEases(cut);
    SameTable(cut, SettleFault(cut), settled);
    SameRewound(SettleFault(cut), settled);
    BeginReconnectEases(settled);
    Then(s, cut, settled);
    Then(s, settled, BeginReconnect(settled));
  }

  // ---------------------------------------------------------------- control frames out

  lemma QueueControlSettles(s: State, frame: ControlFrame)
    ensures Settles(s, QueueControl(s, frame))
  {
    hide HandleFault, Marked;
    HandleFaultSettles(s);
  }

  lemma FlushSettles(s: State)
    ensures Settles(s, FlushAcknowledgment(s))
  {
    hide QueueControl, Marked;
    QueueControlSettles(s.(pendingAck := 0), AckFrame(s.pendingAck));
  }

  lemma QueueAcknowledgmentSettles(s: State, sequence: nat)
    ensures Settles(s, QueueAcknowledgment(s, sequence))
  {
    hide QueueControl, HandleFault, Marked;
    QueueControlSettles(s, AckFrame(sequence));
    HandleFaultSettles(s);
  }

  lemma SendReconnectSettles(s: State)
    ensures Settles(s, SendReconnect(s))
  {
    hide QueueControl, Marked;
    QueueControlSettles(s.(controlQueue := []), ReconnectFrame(s.connectSequence, s.lastInbound));
  }

  // ---------------------------------------------------------------- requests

  /** A row that was never written is added. */
  lemma AdmitEases(s: State, command: Command, tid: nat)
    ensures Settles(s, Admit(Record(s, command, []), command, tid))
  {
    var t := Admit(Record(s, command, []), command, tid);
    forall id, n: nat | Marked(t.pending, id, n) ensures Marked(s.pending, id, n) {
      var k :| 0 <= k < |t.pending| && t.pending[k].id == id && t.pending[k].sequence == n && t.pending[k].sent;
      assert s.pending[k] == t.pending[k];
    }
    EasesSettles(s, t);
  }

  lemma SubmitSettles(s: State, command: Command, cancelled: bool)
    requires s.nextTid <= MAX_UINT64
    ensures Settles(s, Submit(s, command, cancelled))
  {
    hide FailTerminal, TakeTid, Refused, Settles, Admit;
    var taken := TakeTid(Tids(s.pending), s.nextTid, s.tidExhausted);
    var numbered := s.(nextTid := taken.next, tidExhausted := taken.exhausted);
    var refusal := [Delivery(Failed(false), AtSubmit)];
    SameSettles(s, Record(s, command, refusal));
    AdmitEases(s, command, command.tid);
    SameSettles(s, numbered);
    if taken.tid.None? {
      FailTerminalSettles(numbered);
      SameSettles(FailTerminal(numbered), Record(FailTerminal(numbered), command, refusal));
      ThenSettles(s, numbered, FailTerminal(numbered));
      ThenSettles(s, FailTerminal(numbered), Record(FailTerminal(numbered), command, refusal));
    } else {
      AdmitEases(numbered, command, taken.tid.value);
      ThenSettles(s, numbered, Admit(Record(numbered, command, []), command, taken.tid.value));
    }
  }

  lemma SettleSettles(s: State, deliver: map<RequestId, Delivery>)
    ensures Settles(s, Settle(s, deliver))
  {
    hide Drop, DropIds, Delivered, Eases;
    SettleEases(s, deliver);
    EasesSettles(s, Settle(s, deliver));
  }

  lemma CancelSettles(s: State, target: RequestId)
    ensures Settles(s, Cancel(s, target))
  {
    hide Settle, Settles, FindId;
    Still(s);
    var index := FindId(s.pending, target);
    if index < |s.pending| {
      SettleSettles(s, map[target := Delivery(Failed(s.pending[index].mayHaveExecuted), AtCancel)]);
    }
  }

  // ---------------------------------------------------------------- dispatch

  /** What is forgotten was forgotten before: the written row, and no other, becomes listed. */
  ghost predicate Writes(s: State, t: State) {
    && (forall id, n: nat :: Forgotten(t, id, n) ==> Forgotten(s, id, n))
    && (Resting(s) ==> Resting(t))
  }

  lemma SettlesWrites(s: State, t: State)
    requires Settles(s, t)
    ensures Writes(s, t)
  {
    hide Marked, Resting;
  }

  lemma ThenWrites(s: State, t: State, u: State)
    requires Settles(s, t) && Writes(t, u)
    ensures Writes(s, u)
  {
    hide Forgotten, Resting;
    SettlesWrites(s, t);
  }

  lemma HandToWriterWrites(s: State, index: nat, sequence: nat)
    requires index < |s.pending| && s.phase == Ready
    ensures Writes(s, HandToWriter(s, index, sequence))
  {
    var t := HandToWriter(s, index, sequence);
    forall id, n: nat | Forgotten(t, id, n) ensures Forgotten(s, id, n) {
      var k :| 0 <= k < |t.pending| && t.pending[k].id == id && t.pending[k].sequence == n && t.pending[k].sent;
      assert k != index;
      assert s.pending[k] == t.pending[k];
    }
  }

  lemma WriteRowWrites(s: State, index: nat)
    requires index < |s.pending| && s.phase == Ready
    ensures Writes(s, WriteRow(s, index))
  {
    hide HandToWriter, FailTerminal, Writes, Settles;
    HandToWriterWrites(s, index, s.pending[index].sequence);
    var numbered := AllocateSequence(s);
    HandToWriterWrites(numbered, index, FreshSequence(s));
    SameSettles(s, numbered);
    ThenWrites(s, numbered, HandToWriter(numbered, index, FreshSequence(s)));
    FailTerminalSettles(s);
    SettlesWrites(s, FailTerminal(s));
  }

  lemma DispatchRowWrites(s: State, index: nat, cancelled: bool)
    requires index < |s.pending| && s.phase == Ready
    ensures Writes(s, DispatchRow(s, index, cancelled))
  {
    hide Settle, Cancel, WriteRow, SumOf, Settles, Writes;
    var row := s.pending[index];
    Still(s);
    SettlesWrites(s, s);
    SettleSettles(s, map[row.id := Delivery(Failed(false), AtInvalidate)]);
    SettlesWrites(s, Settle(s, map[row.id := Delivery(Failed(false), AtInvalidate)]));
    SettleSettles(s, map[row.id := Delivery(Failed(false), AtRedispatch)]);
    SettlesWrites(s, Settle(s, map[row.id := Delivery(Failed(false), AtRedispatch)]));
    CancelSettles(s, row.id);
    SettlesWrites(s, Cancel(s, row.id));
    WriteRowWrites(s, index);
  }

  lemma DispatchReadyWrites(s: State, cancelled: bool)
    requires s.phase == Ready
    ensures Writes(s, DispatchReady(s, cancelled))
  {
    hide DispatchRow, HandleFault, NextWrite, SumOf, Settles, Writes;
    var index, renewed := NextWrite(s.pending), s.(renewalPending := false);
    Still(s);
    SettlesWrites(s, s);
    SameSettles(s, renewed);
    HandleFaultSettles(renewed);
    ThenSettles(s, renewed, HandleFault(renewed));
    SettlesWrites(s, HandleFault(renewed));
    if index < |s.pending| { DispatchRowWrites(s, index, cancelled); }
  }

  lemma DispatchNextWrites(s: State, cancelled: bool)
    ensures Writes(s, DispatchNext(s, cancelled))
  {
    hide DispatchReady, Settles, Writes;
    Still(s);
    SettlesWrites(s, s);
    if s.controlQueue != [] {
      SameSettles(s, DispatchNext(s, cancelled));
      SettlesWrites(s, DispatchNext(s, cancelled));
    } else if s.phase == Ready {
      DispatchReadyWrites(s, cancelled);
    }
  }

  lemma DispatchWrites(s: State, cancelled: bool)
    ensures Writes(s, Dispatch(s, cancelled))
  {
    hide DispatchNext, FlushAcknowledgment, SumOf, Settles, Writes;
    Still(s);
    SettlesWrites(s, s);
    FlushSettles(s);
    DispatchNextWrites(s, cancelled);
    DispatchNextWrites(FlushAcknowledgment(s), cancelled);
    ThenWrites(s, FlushAcknowledgment(s), DispatchNext(FlushAcknowledgment(s), cancelled));
  }

  lemma HandleWrittenSettles(s: State, generation: nat, request: Option<RequestId>, failed: bool)
    ensures Settles(s, HandleWritten(s, generation, request, failed))
  {
    hide Settle, HandleFault, FindId, Settles;
    Still(s);
    var idle := s.(writeBusy := false);
    SameSettles(s, idle);
    HandleFaultSettles(idle);
    ThenSettles(s, idle, HandleFault(idle));
    if request.Some? {
      var deliver := map[request.value := Delivery(Sent, AtWritten)];
      SettleSettles(idle, deliver);
      ThenSettles(s, idle, Settle(idle, deliver));
    }
  }

  // ---------------------------------------------------------------- acknowledgments

  /** The sequence that this event acknowledges, when the owner takes it: in an acknowledgment frame
      or in a message that is not a duplicate, on the ready transport, for a sequence already given out. */
  function Acknowledged(s: State, event: Event): (sequence: Option<nat>) {
    if s.phase != Ready || s.terminal then None
    else match event
      case MessageEvent(generation, message, _) =>
        if generation == s.generation && s.lastInbound < message.sequence && GivenOut(s, message.acknowledged)
        then Some(message.acknowledged) else None
      case ControlEvent(generation, Ack(sequence)) =>
        if generation == s.generation && GivenOut(s, sequence) then Some(sequence) else None
      case _ => None
  }

  predicate GivenOut(s: State, sequence: nat) {
    sequence == 0 || s.sequenceExhausted || sequence < s.nextOutbound
  }

  /** Nothing is forgotten unless it was, or was sent under an acknowledged sequence. */
  ghost predicate Forgets(s: State, t: State, acknowledged: Option<nat>) {
    forall id, n: nat :: Forgotten(t, id, n) ==>
      Forgotten(s, id, n) || (acknowledged.Some? && n <= acknowledged.value && Marked(s.pending, id, n))
  }

  lemma SequenceIs(rows: seq<Entry>, id: RequestId, n: nat)
    requires Shaped(rows) && Marked(rows, id, n)
    ensures SequenceOf(rows, id) == n
  {
    hide FindId, SameLane;
    var k :| 0 <= k < |rows| && rows[k].id == id && rows[k].sequence == n && rows[k].sent;
    var index := FindId(rows, id);
    assert id in Ids(rows);
  }

  lemma InTail(list: seq<RequestId>, cut: nat, k: nat)
    requires cut <= |list| && k < |list|
    ensures k >= cut ==> list[k] in list[cut..]
  {
    if k >= cut { assert list[cut..][k - cut] == list[k]; }
  }

  lemma TrimForgets(s: State, sequence: nat)
    requires Shaped(s.pending)
    ensures Forgets(s, TrimReplay(s, sequence), Some(sequence))
  {
    hide Shaped, Marked, Trimmed, SequenceOf;
    var t := TrimReplay(s, sequence);
    forall id, n: nat | Forgotten(t, id, n) && id in s.replay ensures n <= sequence {
      SequenceIs(s.pending, id, n);
      var k :| 0 <= k < |s.replay| && s.replay[k] == id;
      InTail(s.replay, |s.replay| - |t.replay|, k);
    }
  }

  /** An acknowledgment that is refused, or none, forgets nothing. */
  lemma WritesForgets(s: State, t: State, acknowledged: Option<nat>)
    requires Writes(s, t)
    ensures Forgets(s, t, acknowledged) && (Resting(s) ==> Resting(t))
  {
    hide Forgotten, Resting;
  }

  lemma ForgetsThen(s: State, t: State, u: State, acknowledged: Option<nat>)
    requires Forgets(s, t, acknowledged) && Settles(t, u)
    ensures Forgets(s, u, acknowledged)
  {
    hide Marked, Resting;
    forall id, n: nat | Forgotten(u, id, n) ensures Forgotten(t, id, n) {}
  }

  // ---------------------------------------------------------------- frames in

  lemma UnsolicitedSettles(s: State, sequence: nat, queueFull: bool, before: nat)
    ensures var acked := QueueAcknowledgment(s, sequence);
            Settles(s, if acked.controlGeneration == before && queueFull then FailTerminal(acked) else acked)
  {
    hide QueueAcknowledgment, FailTerminal, Settles;
    var acked := QueueAcknowledgment(s, sequence);
    QueueAcknowledgmentSettles(s, sequence);
    FailTerminalSettles(acked);
    ThenSettles(s, acked, FailTerminal(acked));
  }

  /** Beyond the rows that it acknowledges, a message only eases the table. */
  lemma AcceptMessageSettles(s: State, message: Inbound, queueFull: bool)
    ensures var trimmed := TrimReplay(s.(lastInbound := message.sequence), message.acknowledged);
            Settles(trimmed, AcceptMessage(s, message, queueFull))
  {
    hide QueueAcknowledgment, FailTerminal, Settle, FindTid, Trimmed, Settles;
    var trimmed := TrimReplay(s.(lastInbound := message.sequence), message.acknowledged);
    var index := FindTid(trimmed.pending, message.tid);
    if index < |trimmed.pending| && !trimmed.pending[index].control {
      var deliver := map[trimmed.pending[index].id := Delivery(Replied, AtReply)];
      SettleSettles(trimmed, deliver);
      QueueAcknowledgmentSettles(Settle(trimmed, deliver), message.sequence);
      ThenSettles(trimmed, Settle(trimmed, deliver), AcceptMessage(s, message, queueFull));
    } else {
      UnsolicitedSettles(trimmed, message.sequence, queueFull, s.controlGeneration);
    }
  }

  /** How the list looks after acknowledging `sequence`: its longest prefix of rows at or below it is
      given up, and what is forgotten was sent at or below it. */
  ghost predicate Shortened(s: State, t: State, sequence: nat) {
    && Forgets(s, t, Some(sequence))
    && (exists k ::
          && 0 <= k <= |s.replay|
          && (forall i :: 0 <= i < k ==> SequenceOf(s.pending, s.replay[i]) <= sequence)
          && (k < |s.replay| ==> SequenceOf(s.pending, s.replay[k]) > sequence)
          && (forall id :: id in t.replay ==> id in s.replay[k..]))
  }

  lemma TrimShortens(s: State, sequence: nat, t: State)
    requires Shaped(s.pending) && Settles(TrimReplay(s, sequence), t)
    ensures Shortened(s, t, sequence)
  {
    hide Shaped, Trimmed, SequenceOf, Marked, Resting, Forgotten;
    var trimmed := TrimReplay(s, sequence);
    TrimForgets(s, sequence);
    ForgetsThen(s, trimmed, t, Some(sequence));
    var k := |s.replay| - |trimmed.replay|;
    assert trimmed.replay == s.replay[k..];
    assert k < |s.replay| ==> s.replay[k] == trimmed.replay[0];
  }

  lemma SameShortened(s: State, r: State, t: State, sequence: nat)
    requires Shortened(r, t, sequence) && r.pending == s.pending && r.replay == s.replay
    ensures Shortened(s, t, sequence)
  {
    hide SequenceOf, Marked;
  }

  lemma AcceptMessageShortens(s: State, message: Inbound, queueFull: bool)
    requires Shaped(s.pending) && s.phase == Ready && Resting(s)
    ensures Shortened(s, AcceptMessage(s, message, queueFull), message.acknowledged)
    ensures Resting(AcceptMessage(s, message, queueFull))
  {
    hide Shaped, AcceptMessage, Shortened, Eases, Trimmed, Rewound;
    var heard := s.(lastInbound := message.sequence);
    AcceptMessageSettles(s, message, queueFull);
    TrimShortens(heard, message.acknowledged, AcceptMessage(s, message, queueFull));
    SameShortened(s, heard, AcceptMessage(s, message, queueFull), message.acknowledged);
  }

  /** Once everything listed is to be written again, an easing step between transports settles. */
  lemma BetweenSettles(s: State, t: State)
    requires Eases(s, t) && Rewound(t) && (t.connectPending ==> t.phase == Disconnected)
    ensures Settles(s, t)
  {
    hide Eases, Rewound;
  }

  lemma HandleResetEases(s: State, full: bool)
    ensures var cut := InvalidateControls(s.(pendingAck := 0)).(serverCookie := 0, lossy := false, connectSequence := 0,
                                                               lastInbound := 0);
            var reset :=
              if full then
                FailAll(cut.(nextOutbound := 1, sequenceExhausted := false, nextTid := 1, tidExhausted := false))
              else PrepareReplay(cut);
            Eases(s, cut) && Eases(s, reset) && Rewound(reset) && cut.phase == s.phase
                && cut.connectPending == s.connectPending && reset.connectPending == s.connectPending
  {
    hide SettleWhere, Marked;
    var quiet := s.(pendingAck := 0);
    var cut := InvalidateControls(quiet).(serverCookie := 0, lossy := false, connectSequence := 0, lastInbound := 0);
    var renumbered := cut.(nextOutbound := 1, sequenceExhausted := false, nextTid := 1, tidExhausted := false);
    InvalidateEases(quiet);
    SettleWhereFrame(quiet, ScopedRow, NoRow, AtInvalidate);
    SettleWhereFrame(renumbered, AnyRow, ExecutedRow, AtFailAll);
    FailAllEases(renumbered);
    FailAllRewinds(renumbered);
    PrepareReplayEases(cut);
    Then(s, cut, if full then FailAll(renumbered) else PrepareReplay(cut));
  }

  lemma HandleResetSettles(s: State, full: bool, cookieOk: bool)
    requires !s.connectPending
    ensures Settles(s, HandleReset(s, full, cookieOk))
  {
    hide InvalidateControls, FailTerminal, FailAll, PrepareReplay, QueueControl, Eases, Rewound, Settles;
    HandleResetEases(s, full);
    var cut := InvalidateControls(s.(pendingAck := 0)).(serverCookie := 0, lossy := false, connectSequence := 0,
                                                       lastInbound := 0);
    EasesSettles(s, cut);
    FailTerminalSettles(cut);
    ThenSettles(s, cut, FailTerminal(cut));
    var reset :=
      if full then FailAll(cut.(nextOutbound := 1, sequenceExhausted := false, nextTid := 1, tidExhausted := false))
      else PrepareReplay(cut);
    var connecting := reset.(phase := Connecting);
    SameTable(s, reset, connecting);
    SameRewound(reset, connecting);
    BetweenSettles(s, connecting);
    QueueControlSettles(connecting, ClientIdentFrame);
    ThenSettles(s, connecting, QueueControl(connecting, ClientIdentFrame));
  }

  lemma HandleServerIdentSettles(s: State, ident: Control)
    requires ident.ServerIdent?
    ensures Settles(s, HandleServerIdent(s, ident))
  {
    hide FailTerminal, HandleFault, FailSentUnknown, Settles;
    var counted := s.(transitions := s.transitions + 1);
    SameSettles(s, counted);
    HandleFaultSettles(s);
    HandleFaultSettles(counted);
    ThenSettles(s, counted, HandleFault(counted));
    FailTerminalSettles(counted);
    ThenSettles(s, counted, FailTerminal(counted));
    if s.phase == Connecting { IdentifiedSettles(s, ident); }
  }

  lemma IdentifiedSettles(s: State, ident: Control)
    requires ident.ServerIdent? && s.phase == Connecting
    ensures var known := s.(transitions := s.transitions + 1, serverCookie := ident.cookie, lossy := ident.isLossy,
                            reconnectAttempts := 0);
            Settles(s, FailSentUnknown(known).(phase := Ready))
  {
    hide SettleWhere, Marked;
    var known := s.(transitions := s.transitions + 1, serverCookie := ident.cookie, lossy := ident.isLossy,
                    reconnectAttempts := 0);
    FailSentEases(known);
    SettleWhereFrame(known, SentRow, AnyRow, AtFailSent);
  }

  lemma UnsendNone(rows: seq<Entry>, replay: seq<RequestId>)
    requires forall id, n: nat :: Marked(rows, id, n) ==> id !in replay
    ensures Unsend(rows, replay) == rows
  {
    forall k | 0 <= k < |rows| && rows[k].id in replay ensures !rows[k].sent {
      if rows[k].sent { assert Marked(rows, rows[k].id, rows[k].sequence); }
    }
  }

  /** What it acknowledges was all to be written again, and still is. */
  lemma ReconnectOkKeepsRows(s: State, sequence: nat)
    requires s.phase == Reconnecting && Resting(s) && GivenOut(s, sequence)
    ensures var t := HandleReconnectOk(s, sequence);
            t == s.(replay := t.replay, reconnectAttempts := 0, phase := Ready)
                && forall id :: id in t.replay ==> id in s.replay
  {
    hide HandleFault, Trimmed, Unsend, Marked;
    var trimmed := TrimReplay(s, sequence);
    assert forall id :: id in trimmed.replay ==> id in s.replay;
    UnsendNone(s.pending, trimmed.replay);
  }

  lemma RewoundSettles(s: State, t: State)
    requires Rewound(s) && t.pending == s.pending && (forall id :: id in t.replay ==> id in s.replay)
    requires !t.connectPending
    ensures Settles(s, t)
  {
    hide Marked;
  }

  lemma HandleReconnectOkSettles(s: State, sequence: nat)
    requires s.phase == Reconnecting && Resting(s)
    ensures Settles(s, HandleReconnectOk(s, sequence))
  {
    hide HandleFault, TrimReplay, PrepareReplay, Settles, Rewound;
    HandleFaultSettles(s);
    if GivenOut(s, sequence) {
      ReconnectOkKeepsRows(s, sequence);
      RewoundSettles(s, HandleReconnectOk(s, sequence));
    }
  }

  lemma HandleTransitionSettles(s: State, control: Control)
    requires control.SessionReset? || control.SessionRetry? || control.SessionRetryGlobal? || control.ReconnectOk?
    requires Resting(s)
    ensures Settles(s, HandleTransition(s, control))
  {
    hide HandleFault, HandleReset, FailTerminal, SendReconnect, HandleReconnectOk, Settles, Rewound;
    var counted := s.(transitions := s.transitions + 1);
    SameSettles(s, counted);
    HandleFaultSettles(s);
    HandleFaultSettles(counted);
    ThenSettles(s, counted, HandleFault(counted));
    FailTerminalSettles(counted);
    ThenSettles(s, counted, FailTerminal(counted));
    if s.phase == Reconnecting {
      CountedRests(s);
      match control {
        case SessionReset(full, cookieOk) =>
          HandleResetSettles(counted, full, cookieOk);
          ThenSettles(s, counted, HandleReset(counted, full, cookieOk));
        case SessionRetry(sequence) =>
          var next := counted.(connectSequence := sequence + 1);
          SameSettles(s, next);
          SendReconnectSettles(next);
          ThenSettles(s, next, SendReconnect(next));
        case SessionRetryGlobal(_) =>
          SendReconnectSettles(counted);
          ThenSettles(s, counted, SendReconnect(counted));
        case ReconnectOk(sequence) =>
          HandleReconnectOkSettles(counted, sequence);
          ThenSettles(s, counted, HandleReconnectOk(counted, sequence));
      }
    }
  }

  lemma CountedRests(s: State)
    requires Resting(s)
    ensures Resting(s.(transitions := s.transitions + 1))
  {
    hide Marked;
  }

  lemma HandleWaitSettles(s: State)
    requires Resting(s) && (s.phase == Connecting || s.phase == Reconnecting)
    ensures Settles(s, HandleFault(s.(transitions := s.transitions + 1, phase := Waiting)))
  {
    hide HandleFault, Marked;
    var waiting := s.(transitions := s.transitions + 1, phase := Waiting);
    HandleFaultSettles(waiting);
    assert Settles(s, waiting);
    ThenSettles(s, waiting, HandleFault(waiting));
  }

  /** Every control frame but an acknowledgment. */
  lemma HandleControlSettles(s: State, control: Control)
    requires Resting(s) && !control.Ack?
    ensures Settles(s, HandleControl(s, control))
  {
    hide HandleFault, QueueControl, HandleServerIdent, FailTerminal, HandleTransition, Settles, Resting;
    Still(s);
    HandleFaultSettles(s);
    match control
    case Keepalive => QueueControlSettles(s, KeepaliveAckFrame);
    case KeepaliveAck =>
    case Wait => if s.phase == Connecting || s.phase == Reconnecting { HandleWaitSettles(s); }
    case ServerIdent(_, _, _, _) => HandleServerIdentSettles(s, control);
    case MissingFeatures => FailTerminalSettles(s);
    case Unexpected =>
    case _ => HandleTransitionSettles(s, control);
  }

  // ---------------------------------------------------------------- transports

  lemma StartTransportSettles(s: State, phase: Phase)
    requires Rewound(s) && !s.connectPending
    ensures Settles(s, StartTransport(s, phase))
  {
    hide Marked;
  }

  lemma OpenTransportSettles(s: State, cookieOk: bool)
    requires Rewound(s) && !s.connectPending
    ensures Settles(s, OpenTransport(s, cookieOk))
  {
    hide FailTerminal, SendReconnect, QueueControl, StartTransport, Settles, Marked;
    FailTerminalSettles(s);
    var again, anew := s.(connectSequence := s.connectSequence + 1), s.(connectSequence := 0);
    SameSettles(s, again);
    SameSettles(s, anew);
    StartTransportSettles(again, Reconnecting);
    StartTransportSettles(anew, Connecting);
    ThenSettles(s, again, StartTransport(again, Reconnecting));
    ThenSettles(s, anew, StartTransport(anew, Connecting));
    SendReconnectSettles(StartTransport(again, Reconnecting));
    QueueControlSettles(StartTransport(anew, Connecting), ClientIdentFrame);
    ThenSettles(s, StartTransport(again, Reconnecting), SendReconnect(StartTransport(again, Reconnecting)));
    ThenSettles(s, StartTransport(anew, Connecting), QueueControl(StartTransport(anew, Connecting), ClientIdentFrame));
  }

  /** Taking up a transport, with the old identity or a new one. */
  lemma AdoptSettles(s: State, connection: Connection)
    requires connection.Transport? && s.phase == Disconnected && Rewound(s) && !s.connectPending
    ensures var next := if connection.identityChanged then ResetForNewIdentity(s) else s;
            Settles(s, OpenTransport(next, connection.cookieOk))
  {
    hide ResetForNewIdentity, OpenTransport, Settles, Eases, Rewound;
    ResetIdentityEases(s);
    ResetIdentityFrame(s);
    EasesRewound(s, ResetForNewIdentity(s));
    EasesSettles(s, ResetForNewIdentity(s));
    OpenTransportSettles(s, connection.cookieOk);
    OpenTransportSettles(ResetForNewIdentity(s), connection.cookieOk);
    ThenSettles(s, ResetForNewIdentity(s), OpenTransport(ResetForNewIdentity(s), connection.cookieOk));
  }

  lemma ResetIdentityFrame(s: State)
    ensures ResetForNewIdentity(s).phase == s.phase && ResetForNewIdentity(s).connectPending == s.connectPending
  {
    hide Drop, DropIds, Chosen, Delivered;
  }

  lemma HandleConnectedSettles(s: State, generation: nat, connection: Connection)
    requires Resting(s) && s.phase != Stopped
    ensures Settles(s, HandleConnected(s, generation, connection))
  {
    hide FailTerminal, BeginReconnect, OpenTransport, ResetForNewIdentity, Settles, Eases, Rewound;
    Still(s);
    if generation == s.generation && s.connectPending {
      var idle := s.(connectPending := false);
      SameRewound(s, idle);
      EasesSelf(s, idle);
      BetweenSettles(s, idle);
      BeginReconnectEases(idle);
      EasesThenRests(s, idle, BeginReconnect(idle));
      if connection.Transport? {
        var open := idle.(terminal := false, transitions := 0);
        var known := open.(connectedOnce := true);
        SameSettles(idle, open);
        SameSettles(idle, known);
        ThenSettles(s, idle, open);
        ThenSettles(s, idle, known);
        FailTerminalSettles(open);
        FailTerminalSettles(known);
        ThenSettles(s, open, FailTerminal(open));
        ThenSettles(s, known, FailTerminal(known));
        SameRewound(idle, known);
        AdoptSettles(known, connection);
        ThenSettles(s, known, OpenTransport(if connection.identityChanged then ResetForNewIdentity(known)
                                            else known, connection.cookieOk));
      }
    }
  }

  lemma EasesSelf(s: State, t: State)
    requires t.pending == s.pending && t.replay == s.replay
    ensures Eases(s, t)
  {
    hide Marked;
  }

  lemma EasesThenRests(s: State, t: State, u: State)
    requires Eases(s, t) && Eases(t, u) && Resting(u)
    ensures Settles(s, u)
  {
    hide Eases, Resting;
    Then(s, t, u);
  }

  lemma StopSettles(s: State)
    ensures Settles(s, Stop(s))
  {
    hide SettleWhere, Marked;
    var cut := InvalidateControls(s).(phase := Stopped);
    InvalidateEases(s);
    SettleWhereFrame(cut, AnyRow, ExecutedRow, AtFailAll);
    FailAllEases(cut);
    Then(s, cut, FailAll(cut));
  }

  // ---------------------------------------------------------------- steps

  lemma HandleAckShortens(s: State, sequence: nat)
    requires Shaped(s.pending) && s.phase == Ready && GivenOut(s, sequence)
    ensures Shortened(s, HandleControl(s, Ack(sequence)), sequence)
    ensures Resting(s) ==> Resting(HandleControl(s, Ack(sequence)))
  {
    hide Shaped, Trimmed, Marked, SequenceOf, Forgets;
    Still(TrimReplay(s, sequence));
    TrimShortens(s, sequence, TrimReplay(s, sequence));
  }

  /** A frame that acknowledges something shortens the list accordingly. */
  lemma StepShortens(s: State, event: Event)
    requires s.nextTid <= MAX_UINT64 && Shaped(s.pending) && Resting(s) && Acknowledged(s, event).Some?
    ensures Shortened(s, Step(s, event), Acknowledged(s, event).value) && Resting(Step(s, event))
  {
    hide Shaped, Resting, Shortened, AcceptMessage, TrimReplay;
    match event
    case MessageEvent(_, message, queueFull) => AcceptMessageShortens(s, message, queueFull);
    case ControlEvent(_, Ack(sequence)) => HandleAckShortens(s, sequence);
  }

  lemma ReadFrameSettles(s: State, event: Event)
    requires event.MessageEvent? || event.ControlEvent? || event.ReadErrorEvent?
    requires Resting(s) && Acknowledged(s, event).None?
    ensures Settles(s, ReadFrame(s, event))
  {
    hide AcceptMessage, HandleControl, FailTerminal, HandleFault, Settles, Resting;
    Still(s);
    HandleFaultSettles(s);
    match event
    case MessageEvent(_, message, queueFull) =>
    case ControlEvent(_, control) => RefusedAck(s, event);
    case ReadErrorEvent(_, _) => FailTerminalSettles(s);
  }

  lemma RefusedAck(s: State, event: Event)
    requires event.ControlEvent? && Resting(s) && Acknowledged(s, event).None?
    ensures Settles(s, ReadFrame(s, event))
  {
    hide TrimReplay, HandleFault, HandleTransition, HandleServerIdent, QueueControl, FailTerminal, Settles, Resting;
    Still(s);
    HandleFaultSettles(s);
    if !event.control.Ack? { HandleControlSettles(s, event.control); }
  }

  /** Every other event forgets nothing. */
  lemma StepWrites(s: State, event: Event)
    requires s.nextTid <= MAX_UINT64 && Resting(s) && Acknowledged(s, event).None?
    ensures Writes(s, Step(s, event))
  {
    hide Resting, Settles, Writes, Dispatch, Submit, Cancel, Stop, ReadFrame, HandleWritten, HandleFault,
        HandleConnected, FlushAcknowledgment, Acknowledged;
    Still(s);
    match event
    case DispatchEvent(cancelled) =>
      DispatchWrites(s, cancelled);
      SettlesWrites(s, s);
    case _ =>
      OtherSettles(s, event);
      SettlesWrites(s, Step(s, event));
  }

  lemma OtherSettles(s: State, event: Event)
    requires s.nextTid <= MAX_UINT64 && Resting(s) && Acknowledged(s, event).None? && !event.DispatchEvent?
    ensures Settles(s, Step(s, event))
  {
    hide Resting, Settles, Submit, Cancel, Stop, ReadFrame, HandleWritten, HandleFault, HandleConnected,
        FlushAcknowledgment, Acknowledged;
    Still(s);
    match event
    case SubmitEvent(command, cancelled) => SubmitSettles(s, command, cancelled);
    case CancelEvent(id) => CancelSettles(s, id);
    case StopEvent => StopSettles(s);
    case MessageEvent(_, _, _) => ReadFrameSettles(s, event);
    case ControlEvent(_, _) => ReadFrameSettles(s, event);
    case ReadErrorEvent(_, _) => ReadFrameSettles(s, event);
    case WrittenEvent(generation, request, failed) => HandleWrittenSettles(s, generation, request, failed);
    case FaultEvent(_) => HandleFaultSettles(s);
    case RenewalEvent(_) => SameSettles(s, s.(renewalPending := true));
    case ConnectedEvent(generation, connection) =>
      if s.phase != Stopped { HandleConnectedSettles(s, generation, connection); }
    case AckTimerEvent => FlushSettles(s);
  }

  lemma StepForgets(s: State, event: Event)
    requires s.nextTid <= MAX_UINT64 && Shaped(s.pending) && Resting(s)
    ensures Forgets(s, Step(s, event), Acknowledged(s, event)) && Resting(Step(s, event))
  {
    hide Shaped, Resting, Step, Forgotten, Marked, Acknowledged;
    if Acknowledged(s, event).Some? {
      StepShortens(s, event);
    } else {
      StepWrites(s, event);
      WritesForgets(s, Step(s, event), None);
    }
  }

  // ---------------------------------------------------------------- runs

  lemma StartRests(config: Config, transport: bool, serverCookie: nat, connectSequence: nat)
    ensures Resting(Start(config, transport, serverCookie, connectSequence))
    ensures Start(config, transport, serverCookie, connectSequence).pending == []
  {
    var idle := Idle(config, transport, serverCookie, connectSequence);
    if !transport { BeginReconnectEases(idle); }
  }

  lemma {:induction false} RunRests(states: seq<State>, events: seq<Event>, i: nat)
    requires IsRun(states, events) && i < |states|
    ensures Resting(states[i])
  {
    hide Resting, Step, Start, Forgets, Acknowledged, Invariant;
    if i == 0 {
      var config, transport, cookie, sequence :| states[0] == Start(config, transport, cookie, sequence);
      StartRests(config, transport, cookie, sequence);
    } else {
      RunRests(states, events, i - 1);
      RunShaped(states, events, i - 1);
      StepForgets(states[i - 1], events[i - 1]);
    }
  }

  lemma RunShaped(states: seq<State>, events: seq<Event>, i: nat)
    requires IsRun(states, events) && i < |states|
    ensures Shaped(states[i].pending)
  {
    hide Shaped, Step, Start, Listed, Known, Numbered, Ordered, Ahead, RowsBounded, InTurn, Admissible;
    RunKeeps(states, events, i);
  }

  /** Since an event that acknowledged this sequence, the request has stayed in the table under it. */
  ghost predicate AcknowledgedSince(states: seq<State>, events: seq<Event>, i: nat, id: RequestId, sequence: nat)
    requires |states| == |events| + 1 && i < |states|
  {
    exists j :: 0 <= j < i
      && Acknowledged(states[j], events[j]).Some? && sequence <= Acknowledged(states[j], events[j]).value
      && (forall m :: j <= m <= i ==> Marked(states[m].pending, id, sequence))
  }

  /** Main theorem: at any point of any run, a request that is marked as sent is kept for replay, or
      its sequence was acknowledged while it was in the table under it. */
  lemma {:induction false} SentIsListed(states: seq<State>, events: seq<Event>, i: nat, id: RequestId, sequence: nat)
    requires IsRun(states, events) && i < |states| && Marked(states[i].pending, id, sequence)
    ensures id in states[i].replay || AcknowledgedSince(states, events, i, id, sequence)
  {
    hide Resting, Step, Start, Acknowledged, Marked, Shaped;
    if i == 0 {
      var config, transport, cookie, start :| states[0] == Start(config, transport, cookie, start);
      StartRests(config, transport, cookie, start);
      assert !Marked([], id, sequence) by { hide *; NoneMarked(id, sequence); }
    } else if id !in states[i].replay {
      var s := states[i - 1];
      RunRests(states, events, i - 1);
      RunShaped(states, events, i - 1);
      StepForgets(s, events[i - 1]);
      assert Forgotten(states[i], id, sequence);
      if Forgotten(s, id, sequence) {
        SentIsListed(states, events, i - 1, id, sequence);
      }
    }
  }

  lemma NoneMarked(id: RequestId, sequence: nat)
    ensures !Marked([], id, sequence)
  {
  }

  /** The server takes the session up again, and the owner agrees. */
  predicate Resumes(s: State, event: Event) {
    && event.ControlEvent? && event.control.ReconnectOk? && event.generation == s.generation && !s.terminal
    && s.phase == Reconnecting && s.transitions < s.config.maxTransitions
    && GivenOut(s, event.control.messageSequence)
  }

  lemma ResumeKeepsRows(s: State, event: Event)
    requires s.nextTid <= MAX_UINT64 && Resting(s) && Resumes(s, event)
    ensures Step(s, event).phase == Ready && Step(s, event).pending == s.pending
    ensures Step(s, event).dispatched == s.dispatched
  {
    hide TrimReplay, PrepareReplay, HandleFault, Rewound;
    CountedRests(s);
    ReconnectOkKeepsRows(s.(transitions := s.transitions + 1), event.control.messageSequence);
  }

  /** When the session is taken up again, every request in the table that was ever written will be written
      again, unless its sequence was acknowledged on a ready transport. The sequence that the server names
      now spares none of them. */
  lemma ResumeRewrites(states: seq<State>, events: seq<Event>, i: nat, k: nat)
    requires IsRun(states, events) && i < |events| && Resumes(states[i], events[i])
    requires k < |states[i + 1].pending| && states[i + 1].pending[k].id in states[i + 1].dispatched
    ensures states[i + 1].phase == Ready && states[i + 1].pending == states[i].pending
    ensures var row := states[i + 1].pending[k];
            UnsentReplay(row) || AcknowledgedSince(states, events, i, row.id, row.sequence)
  {
    hide Resting, Step, Start, Acknowledged, Marked, GivenOut, AcknowledgedSince;
    RunRests(states, events, i);
    ResumeKeepsRows(states[i], events[i]);
    var row := states[i].pending[k];
    RunNumbers(states, events, i, k);
    if row.sent { SentUnlisted(states, events, i, k); }
  }

  lemma RunNumbers(states: seq<State>, events: seq<Event>, i: nat, k: nat)
    requires IsRun(states, events) && i < |states| && k < |states[i].pending|
    ensures states[i].pending[k].id in states[i].dispatched <==> states[i].pending[k].sequence != 0
  {
    hide Shaped, Step, Start, Listed, Numbered, Ordered, Ahead, RowsBounded, InTurn, Admissible;
    RunKeeps(states, events, i);
    assert Waits(HistoryOf(states[i]), states[i].pending[k]);
  }

  /** Between transports, only acknowledged requests are still marked as sent. */
  lemma SentUnlisted(states: seq<State>, events: seq<Event>, i: nat, k: nat)
    requires IsRun(states, events) && i < |states| && k < |states[i].pending| && states[i].pending[k].sent
    requires states[i].phase != Ready && states[i].phase != Stopped
    ensures AcknowledgedSince(states, events, i, states[i].pending[k].id, states[i].pending[k].sequence)
  {
    hide Step, Start, Acknowledged, AcknowledgedSince;
    var row := states[i].pending[k];
    RunRests(states, events, i);
    assert Marked(states[i].pending, row.id, row.sequence);
    SentIsListed(states, events, i, row.id, row.sequence);
  }

  /** A row is the one to be written again first. */
  ghost predicate FirstAgain(rows: seq<Entry>, k: nat) {
    && k < |rows| && UnsentReplay(rows[k])
    && forall i :: 0 <= i < |rows| && UnsentReplay(rows[i]) ==> rows[k].sequence <= rows[i].sequence
  }

  lemma FirstAgainIsNext(h: History, rows: seq<Entry>, k: nat)
    requires Shaped(rows) && Known(h, rows) && FirstAgain(rows, k)
    ensures NextWrite(rows) == k
  {
    var index := NextWrite(rows);
    NextWriteIsDue(h, rows);
    SomeNext(rows, k);
    assert rows[index].sequence == rows[k].sequence;
    assert forall i, j :: 0 <= i < j < |rows| && SameLane(rows[i], rows[j]) && rows[j].sequence != 0 ==>
        rows[i].sequence != rows[j].sequence;
  }

  lemma SomeNext(rows: seq<Entry>, k: nat)
    requires k < |rows| && UnsentReplay(rows[k])
    ensures NextWrite(rows) < |rows|
  {
    LeastReplayIsLeast(rows, 0, |rows|);
  }

  /** The writer is free for the next message. */
  predicate Free(s: State) {
    s.phase == Ready && s.linked && !s.writeBusy && s.controlQueue == [] && !s.renewalPending
  }

  /** The requests to be written again go out before any other, lowest sequence first, each under its old
      sequence; they are listed again. */
  lemma RewritesInOrder(s: State, k: nat)
    requires Invariant(s) && Free(s) && FirstAgain(s.pending, k)
    requires s.pending[k].generation == 0 || s.pending[k].generation == s.controlGeneration
    requires s.pending[k].control || InFlight(s) < s.config.maxInFlight
    ensures var row, t := s.pending[k], Step(s, DispatchEvent(false));
            && t.written == s.written + [Write(row.id, row.sequence, true, row.control)]
            && Marked(t.pending, row.id, row.sequence) && row.id in t.replay
            && t.nextOutbound == s.nextOutbound && t.sequenceExhausted == s.sequenceExhausted
  {
    hide Shaped, Known, NextWrite, SumOf, Listed, Numbered, Ordered, Ahead, RowsBounded, InTurn, Admissible;
    FirstAgainIsNext(HistoryOf(s), s.pending, k);
    var t := Step(s, DispatchEvent(false));
    assert t.pending[k].id == s.pending[k].id && t.pending[k].sequence == s.pending[k].sequence && t.pending[k].sent;
  }

  /** What an event acknowledges leaves the list, up to the first row that it does not reach. */
  lemma AcknowledgedIsUnlisted(states: seq<State>, events: seq<Event>, i: nat)
    requires IsRun(states, events) && i < |events| && Acknowledged(states[i], events[i]).Some?
    ensures Shortened(states[i], states[i + 1], Acknowledged(states[i], events[i]).value)
  {
    hide Resting, Step, Start, Acknowledged, Shortened, Shaped;
    RunRests(states, events, i);
    RunShaped(states, events, i);
    StepShortens(states[i], events[i]);
  }
}
