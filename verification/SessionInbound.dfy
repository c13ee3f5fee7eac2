/** What the owner owes to the peer: every message is taken once, and only what was received is acknowledged. */
module SessionInbound {
  import opened Common
  import opened SessionState
  import opened SessionSteps
  import opened SessionInvariant
  import opened SessionRuns
  import R = SessionReplay

  // ---------------------------------------------------------------- what holds after every step

  /** An acknowledgment among the frames to be written is of something received. */
  ghost predicate Received(queue: seq<ControlFrame>, sequence: nat) {
    forall i :: 0 <= i < |queue| && queue[i].AckFrame? ==> queue[i].sequence <= sequence
  }

  ghost predicate Silent(queue: seq<ControlFrame>) { forall i :: 0 <= i < |queue| ==> !queue[i].AckFrame? }

  /** Acknowledgments are only of what was received, and only on a ready transport; the one that is put off is of
      the last message. */
  ghost predicate Owes(s: State) {
    && (s.pendingAck != 0 ==> s.pendingAck == s.lastInbound)
    && Received(s.controlQueue, s.lastInbound)
    && (s.phase != Ready && s.phase != Stopped ==> s.pendingAck == 0 && Silent(s.controlQueue))
  }

  /** Control requests that are meant for one transport belong to the one there is. */
  ghost predicate Scoped(rows: seq<Entry>, generation: nat) {
    forall i :: 0 <= i < |rows| && rows[i].generation != 0 ==> rows[i].generation == generation
  }

  /** Attempts and handshake steps are counted and stay within their limits; who has given up is not connected. */
  predicate Bounded(s: State) {
    && (s.config.maxReconnects > 0 ==> s.reconnectAttempts <= s.config.maxReconnects)
    && s.transitions <= s.config.maxTransitions + 1
    && (s.terminal ==> s.phase == Disconnected || s.phase == Stopped)
  }

  /** A handshake that goes on is within its limit. */
  predicate Patient(s: State) {
    Bounded(s) && (s.phase == Connecting || s.phase == Reconnecting ==> s.transitions <= s.config.maxTransitions)
  }

  ghost predicate Tidy(s: State) { Owes(s) && Scoped(s.pending, s.controlGeneration) && Patient(s) }

  /** What was last received is remembered, or forgotten with a lossy connection. */
  predicate Remembers(s: State, t: State) {
    t.lastInbound == s.lastInbound || (s.lossy && t.lastInbound == 0)
  }

  // ---------------------------------------------------------------- settling

  /** Only table, list and results changed. */
  ghost predicate Rest(s: State, t: State) { t == s.(pending := t.pending, replay := t.replay, results := t.results) }

  /** Every row comes from one of the same transport. */
  ghost predicate Fewer(rows: seq<Entry>, more: seq<Entry>) {
    forall i :: 0 <= i < |rows| ==> Among(more, rows[i].generation)
  }

  ghost predicate Among(rows: seq<Entry>, generation: nat) {
    exists k :: 0 <= k < |rows| && rows[k].generation == generation
  }

  lemma FewerScoped(rows: seq<Entry>, more: seq<Entry>, generation: nat)
    requires Fewer(rows, more) && Scoped(more, generation)
    ensures Scoped(rows, generation)
  {
  }

  lemma SettleRest(s: State, deliver: map<RequestId, Delivery>)
    ensures Rest(s, Settle(s, deliver)) && Fewer(Settle(s, deliver).pending, s.pending)
  {
    hide Drop, DropIds, Delivered;
    var t := Settle(s, deliver);
    forall i | 0 <= i < |t.pending| ensures Among(s.pending, t.pending[i].generation) {
      var a := DropSource(s.pending, deliver.Keys, i);
    }
  }

  /** A step that settles rows and does nothing else. */
  lemma RestTidy(s: State, t: State)
    requires Tidy(s) && Rest(s, t) && Fewer(t.pending, s.pending)
    ensures Tidy(t) && Remembers(s, t)
  {
    FewerScoped(t.pending, s.pending, s.controlGeneration);
  }

  /** No control request of a transport is left. */
  lemma InvalidateRest(s: State)
    ensures var t := InvalidateControls(s);
            && t == s.(pending := t.pending, replay := t.replay, results := t.results,
                       controlGeneration := s.controlGeneration + 1)
            && forall generation :: Scoped(t.pending, generation)
  {
    hide Drop, DropIds, Delivered, Chosen;
    var deliver := Chosen(s.pending, ScopedRow, NoRow, AtInvalidate);
    var rest := Drop(s.pending, deliver.Keys);
    forall i | 0 <= i < |rest| ensures rest[i].generation == 0 {
      var a := DropSource(s.pending, deliver.Keys, i);
      if s.pending[a].generation != 0 { ChosenCovers(s.pending, ScopedRow, NoRow, AtInvalidate, a); }
    }
  }

  lemma FailAllRest(s: State)
    ensures Rest(s, FailAll(s)) && FailAll(s).pending == []
  {
    hide SettleWhere;
    R.SettleWhereFrame(s, AnyRow, ExecutedRow, AtFailAll);
    R.FailAllLeavesNone(s);
  }

  lemma FailSentRest(s: State)
    ensures Rest(s, FailSentUnknown(s)) && Fewer(FailSentUnknown(s).pending, s.pending)
  {
    hide Settle, Chosen;
    SettleRest(s, Chosen(s.pending, SentRow, AnyRow, AtFailSent));
  }

  lemma PrepareRest(s: State)
    ensures Rest(s, PrepareReplay(s)) && Fewer(PrepareReplay(s).pending, s.pending)
  {
    var rows := PrepareReplay(s).pending;
    forall i | 0 <= i < |rows| ensures Among(s.pending, rows[i].generation) {
      assert rows[i].generation == s.pending[i].generation;
    }
  }

  // ---------------------------------------------------------------- faults

  /** Who gives up has nothing left to do. */
  lemma FailTerminalIs(s: State)
    ensures var t := FailTerminal(s);
            && t.phase == Disconnected && t.terminal && !t.connectPending && t.pending == []
            && t.pendingAck == 0 && t.controlQueue == [] && t.lastInbound == s.lastInbound
            && t.config == s.config && t.transitions == s.transitions && t.reconnectAttempts == s.reconnectAttempts
  {
    hide FailAll, SettleWhere;
    InvalidateRest(s);
    FailAllRest(InvalidateControls(s).(pendingAck := 0, generation := s.generation + 1, terminal := true,
                                       linked := false, writeBusy := false, controlQueue := [],
                                       connectPending := false));
  }

  lemma FailTerminalTidy(s: State)
    requires Bounded(s)
    ensures Tidy(FailTerminal(s)) && FailTerminal(s).lastInbound == s.lastInbound
  {
    hide FailTerminal;
    FailTerminalIs(s);
  }

  lemma SettleFaultIs(s: State)
    requires forall generation :: Scoped(s.pending, generation)
    ensures var t := SettleFault(s);
            && t.phase == s.phase && t.pendingAck == (if s.lossy then 0 else s.pendingAck)
            && t.controlQueue == s.controlQueue && t.terminal == s.terminal
            && t.config == s.config && t.transitions == s.transitions && t.reconnectAttempts == s.reconnectAttempts
            && t.lastInbound == (if s.lossy then 0 else s.lastInbound)
            && forall generation :: Scoped(t.pending, generation)
  {
    hide FailAll, FailSentUnknown, PrepareReplay, Scoped, Fewer;
    var sent := FailSentUnknown(s);
    FailSentRest(s);
    FailAllRest(s);
    PrepareRest(s);
    FailAllRest(sent.(pendingAck := 0, serverCookie := 0, lossy := false, connectSequence := 0,
                      lastInbound := 0, nextOutbound := 1, sequenceExhausted := false,
                      nextTid := 1, tidExhausted := false));
    forall generation ensures Scoped(SettleFault(s).pending, generation) {
      if !s.lossy && s.config.policy != FailPending {
        FewerScoped(SettleFault(s).pending, s.pending, generation);
      } else {
        NoneScoped(generation);
      }
    }
  }

  lemma NoneScoped(generation: nat)
    ensures Scoped([], generation)
  {
  }

  /** Nothing is queued, and no request is meant for a transport. */
  ghost predicate Bare(s: State) {
    s.pendingAck == 0 && s.controlQueue == [] && forall generation :: Scoped(s.pending, generation)
  }

  lemma BareTidy(s: State)
    requires Bare(s) && Patient(s)
    ensures Tidy(s)
  {
    hide Scoped;
  }

  lemma TidyBounded(s: State)
    requires Tidy(s)
    ensures Bounded(s)
  {
  }

  lemma AskedTidy(s: State)
    requires Tidy(s) && s.phase == Disconnected
    requires s.config.maxReconnects == 0 || s.reconnectAttempts < s.config.maxReconnects
    ensures Tidy(s.(reconnectAttempts := s.reconnectAttempts + 1, connectPending := true,
                    generation := s.generation + 1))
  {
    hide Scoped, Received, Silent;
  }

  lemma BeginReconnectTidy(s: State)
    requires Tidy(s) && s.phase == Disconnected
    ensures Tidy(BeginReconnect(s)) && BeginReconnect(s).lastInbound == s.lastInbound
    ensures BeginReconnect(s).phase == Disconnected
  {
    hide FailTerminal, Tidy, Bounded;
    if s.config.maxReconnects > 0 && s.reconnectAttempts >= s.config.maxReconnects {
      TidyBounded(s);
      FailTerminalTidy(s);
      R.FailTerminalPhase(s);
    } else {
      AskedTidy(s);
    }
  }

  lemma HandleFaultTidy(s: State)
    requires Bounded(s) && (IgnoresFault(s) ==> Tidy(s))
    ensures Tidy(HandleFault(s)) && Remembers(s, HandleFault(s))
    ensures !IgnoresFault(s) ==> HandleFault(s).phase == Disconnected
  {
    hide InvalidateControls, SettleFault, BeginReconnect, Scoped, Owes;
    if !IgnoresFault(s) {
      var cut := InvalidateControls(s).(pendingAck := 0, linked := false, writeBusy := false, controlQueue := []);
      var settled := SettleFault(cut).(phase := Disconnected);
      InvalidateRest(s);
      SettleFaultIs(cut);
      BareTidy(settled);
      BeginReconnectTidy(settled);
    }
  }

  // ---------------------------------------------------------------- frames out

  lemma OneMoreFrame(queue: seq<ControlFrame>, frame: ControlFrame, sequence: nat)
    ensures Received(queue, sequence) && (frame.AckFrame? ==> frame.sequence <= sequence) ==>
              Received(queue + [frame], sequence)
    ensures Silent(queue) && !frame.AckFrame? ==> Silent(queue + [frame])
  {
  }

  lemma QueuedTidy(s: State, frame: ControlFrame)
    requires Tidy(s) && (frame.AckFrame? ==> frame.sequence <= s.lastInbound && s.phase == Ready)
    ensures Tidy(s.(controlQueue := s.controlQueue + [frame]))
  {
    hide Scoped, Received, Silent;
    OneMoreFrame(s.controlQueue, frame, s.lastInbound);
  }

  lemma QueueControlTidy(s: State, frame: ControlFrame)
    requires Tidy(s) && (frame.AckFrame? ==> frame.sequence <= s.lastInbound && s.phase == Ready)
    ensures Tidy(QueueControl(s, frame)) && Remembers(s, QueueControl(s, frame))
  {
    hide HandleFault, Tidy, Bounded, IgnoresFault;
    TidyBounded(s);
    HandleFaultTidy(s);
    QueuedTidy(s, frame);
  }

  lemma FlushTidy(s: State)
    requires Tidy(s) && s.phase != Stopped
    ensures Tidy(FlushAcknowledgment(s)) && Remembers(s, FlushAcknowledgment(s))
  {
    hide QueueControl, Scoped;
    if s.pendingAck != 0 { QueueControlTidy(s.(pendingAck := 0), AckFrame(s.pendingAck)); }
  }

  lemma SendReconnectTidy(s: State)
    requires Tidy(s)
    ensures Tidy(SendReconnect(s)) && Remembers(s, SendReconnect(s))
  {
    hide QueueControl, Scoped;
    QueueControlTidy(s.(controlQueue := []), ReconnectFrame(s.connectSequence, s.lastInbound));
  }

  // ---------------------------------------------------------------- frames in

  /** Ready, and in order up to the acknowledgment of the message just received. */
  ghost predicate Listens(s: State) {
    s.phase == Ready && Received(s.controlQueue, s.lastInbound) && Scoped(s.pending, s.controlGeneration) && Patient(s)
  }

  lemma ListensFaults(s: State)
    requires Listens(s)
    ensures Bounded(s) && !IgnoresFault(s) && s.phase == Ready && Tidy(s.(pendingAck := s.lastInbound))
  {
  }

  /** The acknowledgment is put off, or the transport is given up. */
  lemma QueueAcknowledgmentTidy(s: State)
    requires Listens(s)
    ensures var t := QueueAcknowledgment(s, s.lastInbound);
            && Tidy(t) && Remembers(s, t)
            && (t.phase == Disconnected || t == s.(pendingAck := s.lastInbound))
  {
    hide HandleFault, Listens, Tidy, IgnoresFault, Bounded;
    ListensFaults(s);
    HandleFaultTidy(s);
  }

  /** A message is new: it is not below one that was taken before. */
  predicate IsNew(s: State, message: Inbound) { s.lastInbound < message.sequence }

  lemma NewListens(s: State, message: Inbound)
    requires Tidy(s) && s.phase == Ready && IsNew(s, message)
    ensures Listens(TrimReplay(s.(lastInbound := message.sequence), message.acknowledged))
  {
    hide Scoped, Trimmed, Received, Silent;
    ReceivedMore(s.controlQueue, s.lastInbound, message.sequence);
  }

  lemma SettleListens(s: State, deliver: map<RequestId, Delivery>)
    requires Listens(s)
    ensures Listens(Settle(s, deliver)) && Rest(s, Settle(s, deliver))
  {
    hide Settle, Scoped, Received, Silent, Fewer;
    SettleRest(s, deliver);
    FewerScoped(Settle(s, deliver).pending, s.pending, s.controlGeneration);
  }

  /** After a message with this sequence: it is remembered, and acknowledged unless the transport is gone. */
  ghost predicate Takes(s: State, t: State, sequence: nat) {
    && Tidy(t) && (t.lastInbound == sequence || (s.lossy && t.lastInbound == 0))
    && (t.phase == Disconnected || t.pendingAck == sequence)
  }

  lemma ReplyTakes(s: State, deliver: map<RequestId, Delivery>)
    requires Listens(s)
    ensures Takes(s, QueueAcknowledgment(Settle(s, deliver), s.lastInbound), s.lastInbound)
  {
    hide QueueAcknowledgment, Settle, Tidy, Listens;
    SettleListens(s, deliver);
    QueueAcknowledgmentTidy(Settle(s, deliver));
  }

  lemma UnsolicitedTakes(s: State, queueFull: bool, before: nat)
    requires Listens(s)
    ensures var acked := QueueAcknowledgment(s, s.lastInbound);
            Takes(s, if acked.controlGeneration == before && queueFull then FailTerminal(acked)
                     else acked, s.lastInbound)
  {
    hide QueueAcknowledgment, FailTerminal, Tidy, Listens, Bounded;
    QueueAcknowledgmentTidy(s);
    var acked := QueueAcknowledgment(s, s.lastInbound);
    TidyBounded(acked);
    FailTerminalTidy(acked);
    FailTerminalIs(acked);
  }

  lemma AcceptMessageTakes(s: State, message: Inbound, queueFull: bool)
    requires Tidy(s) && s.phase == Ready && IsNew(s, message)
    ensures Takes(s, AcceptMessage(s, message, queueFull), message.sequence)
  {
    hide QueueAcknowledgment, FailTerminal, Settle, FindTid, Trimmed, Tidy, Listens;
    var trimmed := TrimReplay(s.(lastInbound := message.sequence), message.acknowledged);
    var index := FindTid(trimmed.pending, message.tid);
    NewListens(s, message);
    if index < |trimmed.pending| && !trimmed.pending[index].control {
      ReplyTakes(trimmed, map[trimmed.pending[index].id := Delivery(Replied, AtReply)]);
    } else {
      UnsolicitedTakes(trimmed, queueFull, s.controlGeneration);
    }
  }

  lemma ReceivedMore(queue: seq<ControlFrame>, less: nat, more: nat)
    requires Received(queue, less) && less <= more
    ensures Received(queue, more)
  {
  }

  lemma SilentReceived(queue: seq<ControlFrame>, sequence: nat)
    requires Silent(queue)
    ensures Received(queue, sequence)
  {
  }

  /** A reset forgets what was received; nothing is owed for it. */
  lemma HandleResetTidy(s: State, full: bool, cookieOk: bool)
    requires Tidy(s) && s.phase == Reconnecting
    ensures Tidy(HandleReset(s, full, cookieOk)) && HandleReset(s, full, cookieOk).lastInbound == 0
  {
    hide InvalidateControls, FailTerminal, FailAll, PrepareReplay, QueueControl, Scoped, Received, Silent;
    var quiet := s.(pendingAck := 0);
    var cut := InvalidateControls(quiet).(serverCookie := 0, lossy := false, connectSequence := 0, lastInbound := 0);
    InvalidateRest(quiet);
    FailTerminalTidy(cut);
    var renumbered := cut.(nextOutbound := 1, sequenceExhausted := false, nextTid := 1, tidExhausted := false);
    FailAllRest(renumbered);
    PrepareRest(cut);
    FewerScoped(PrepareReplay(cut).pending, cut.pending, cut.controlGeneration);
    NoneScoped(cut.controlGeneration);
    SilentReceived(s.controlQueue, 0);
    var reset := if full then FailAll(renumbered) else PrepareReplay(cut);
    QueueControlTidy(reset.(phase := Connecting), ClientIdentFrame);
  }

  /** One more step of a handshake. */
  lemma CountedBounded(s: State)
    requires Tidy(s) && !s.terminal && (s.phase == Connecting || s.phase == Reconnecting)
    ensures var counted := s.(transitions := s.transitions + 1);
            && Bounded(counted) && !IgnoresFault(counted)
            && (counted.transitions <= s.config.maxTransitions ==> Tidy(counted))
  {
    hide Scoped, Received, Silent;
  }

  lemma IdentifiedTidy(s: State, ident: Control)
    requires Tidy(s) && s.phase == Connecting && ident.ServerIdent?
    ensures var known := s.(serverCookie := ident.cookie, lossy := ident.isLossy, reconnectAttempts := 0);
            var t := FailSentUnknown(known).(phase := Ready);
            Tidy(t) && t.lastInbound == s.lastInbound
  {
    hide FailSentUnknown, Scoped, Received, Silent, Fewer;
    var known := s.(serverCookie := ident.cookie, lossy := ident.isLossy, reconnectAttempts := 0);
    FailSentRest(known);
    FewerScoped(FailSentUnknown(known).pending, known.pending, s.controlGeneration);
  }

  lemma HandleServerIdentTidy(s: State, ident: Control)
    requires Tidy(s) && !s.terminal && ident.ServerIdent?
    ensures Tidy(HandleServerIdent(s, ident)) && Remembers(s, HandleServerIdent(s, ident))
  {
    hide FailTerminal, HandleFault, FailSentUnknown, Tidy, Bounded, IgnoresFault;
    var counted := s.(transitions := s.transitions + 1);
    TidyBounded(s);
    HandleFaultTidy(s);
    if s.phase == Connecting {
      CountedBounded(s);
      HandleFaultTidy(counted);
      FailTerminalTidy(counted);
      if counted.transitions <= s.config.maxTransitions { IdentifiedTidy(counted, ident); }
    }
  }

  lemma HandleReconnectOkTidy(s: State, sequence: nat)
    requires Tidy(s) && s.phase == Reconnecting
    ensures Tidy(HandleReconnectOk(s, sequence)) && Remembers(s, HandleReconnectOk(s, sequence))
  {
    hide HandleFault, PrepareReplay, Trimmed, Scoped, Received, Silent;
    HandleFaultTidy(s);
    PrepareRest(TrimReplay(s, sequence));
    FewerScoped(PrepareReplay(TrimReplay(s, sequence)).pending, s.pending, s.controlGeneration);
  }

  lemma HandleWaitTidy(s: State)
    requires Tidy(s) && !s.terminal && (s.phase == Connecting || s.phase == Reconnecting)
    ensures var t := HandleFault(s.(transitions := s.transitions + 1, phase := Waiting)); Tidy(t) && Remembers(s, t)
  {
    hide HandleFault, Scoped, Received, Silent;
    HandleFaultTidy(s.(transitions := s.transitions + 1, phase := Waiting));
  }

  /** A reset is taken. */
  predicate Resets(s: State, control: Control) { control.SessionReset? && s.phase == Reconnecting }

  lemma TransitionTidy(s: State, control: Control)
    requires control.SessionReset? || control.SessionRetry? || control.SessionRetryGlobal? || control.ReconnectOk?
    requires Tidy(s) && s.phase == Reconnecting && s.transitions <= s.config.maxTransitions
    ensures var t := match control
              case SessionReset(full, cookieOk) => HandleReset(s, full, cookieOk)
              case SessionRetry(sequence) =>
                if sequence >= MAX_UINT64 then FailTerminal(s) else SendReconnect(s.(connectSequence := sequence + 1))
              case SessionRetryGlobal(globalOk) => if globalOk then SendReconnect(s) else FailTerminal(s)
              case ReconnectOk(sequence) => HandleReconnectOk(s, sequence);
            Tidy(t) && (Remembers(s, t) || (control.SessionReset? && t.lastInbound == 0))
  {
    hide HandleReset, FailTerminal, SendReconnect, HandleReconnectOk, Bounded, Owes, Scoped;
    TidyBounded(s);
    FailTerminalTidy(s);
    match control
    case SessionReset(full, cookieOk) => HandleResetTidy(s, full, cookieOk);
    case SessionRetry(sequence) =>
      var next := s.(connectSequence := sequence + 1);
      SameTidy(s, next);
      SendReconnectTidy(next);
    case SessionRetryGlobal(_) => SendReconnectTidy(s);
    case ReconnectOk(sequence) => HandleReconnectOkTidy(s, sequence);
  }

  /** A step that leaves alone what is promised about. */
  lemma SameTidy(s: State, t: State)
    requires Tidy(s) && t.phase == s.phase && t.pendingAck == s.pendingAck && t.lastInbound == s.lastInbound
    requires t.controlQueue == s.controlQueue && t.pending == s.pending && t.controlGeneration == s.controlGeneration
    requires t.config == s.config && t.transitions == s.transitions && t.terminal == s.terminal
    requires t.reconnectAttempts == s.reconnectAttempts
    ensures Tidy(t)
  {
    hide Scoped, Received, Silent;
  }

  lemma HandleTransitionTidy(s: State, control: Control)
    requires control.SessionReset? || control.SessionRetry? || control.SessionRetryGlobal? || control.ReconnectOk?
    requires Tidy(s) && !s.terminal
    ensures var t := HandleTransition(s, control);
            Tidy(t) && (Remembers(s, t) || (Resets(s, control) && t.lastInbound == 0))
  {
    hide HandleFault, HandleReset, FailTerminal, SendReconnect, HandleReconnectOk, Tidy, Bounded, IgnoresFault;
    var counted := s.(transitions := s.transitions + 1);
    TidyBounded(s);
    HandleFaultTidy(s);
    if s.phase == Reconnecting {
      CountedBounded(s);
      HandleFaultTidy(counted);
      if counted.transitions <= s.config.maxTransitions { TransitionTidy(counted, control); }
    }
  }

  lemma TrimTidy(s: State, sequence: nat)
    requires Tidy(s)
    ensures Tidy(TrimReplay(s, sequence))
  {
    hide Trimmed, Scoped, Received, Silent;
  }

  lemma HandleControlTidy(s: State, control: Control)
    requires Tidy(s) && !s.terminal
    ensures var t := HandleControl(s, control);
            Tidy(t) && (Remembers(s, t) || (Resets(s, control) && t.lastInbound == 0))
  {
    hide HandleFault, QueueControl, HandleServerIdent, FailTerminal, HandleTransition, Tidy, Bounded, IgnoresFault,
        Trimmed;
    TidyBounded(s);
    HandleFaultTidy(s);
    match control
    case Ack(sequence) => TrimTidy(s, sequence);
    case Keepalive => QueueControlTidy(s, KeepaliveAckFrame);
    case KeepaliveAck =>
    case Wait => if s.phase == Connecting || s.phase == Reconnecting { HandleWaitTidy(s); }
    case ServerIdent(_, _, _, _) => HandleServerIdentTidy(s, control);
    case MissingFeatures => FailTerminalTidy(s);
    case Unexpected =>
    case _ => HandleTransitionTidy(s, control);
  }

  // ---------------------------------------------------------------- requests and writes

  lemma AdmitTidy(s: State, command: Command, tid: nat)
    requires Tidy(s) && (command.generation != 0 ==> command.generation == s.controlGeneration)
    ensures Tidy(Admit(Record(s, command, []), command, tid))
  {
    hide Received, Silent;
  }

  lemma SubmitTidy(s: State, command: Command, cancelled: bool)
    requires Tidy(s) && s.nextTid <= MAX_UINT64
    ensures Tidy(Submit(s, command, cancelled)) && Submit(s, command, cancelled).lastInbound == s.lastInbound
  {
    hide FailTerminal, TakeTid, Saturated, Tidy, Bounded;
    var refusal := [Delivery(Failed(false), AtSubmit)];
    SameTidy(s, Record(s, command, refusal));
    if !Refused(s, command, cancelled) {
      var taken := TakeTid(Tids(s.pending), s.nextTid, s.tidExhausted);
      var numbered := s.(nextTid := taken.next, tidExhausted := taken.exhausted);
      SameTidy(s, numbered);
      TidyBounded(numbered);
      AdmitTidy(s, command, command.tid);
      FailTerminalTidy(numbered);
      SameTidy(FailTerminal(numbered), Record(FailTerminal(numbered), command, refusal));
      if taken.tid.Some? { AdmitTidy(numbered, command, taken.tid.value); }
    }
  }

  lemma SettleTidy(s: State, deliver: map<RequestId, Delivery>)
    requires Tidy(s)
    ensures Tidy(Settle(s, deliver)) && Settle(s, deliver).lastInbound == s.lastInbound
  {
    hide Settle, Tidy, Fewer;
    SettleRest(s, deliver);
    RestTidy(s, Settle(s, deliver));
  }

  lemma CancelTidy(s: State, target: RequestId)
    requires Tidy(s)
    ensures Tidy(Cancel(s, target)) && Cancel(s, target).lastInbound == s.lastInbound
  {
    hide Settle, Tidy, FindId;
    var index := FindId(s.pending, target);
    if index < |s.pending| {
      SettleTidy(s, map[target := Delivery(Failed(s.pending[index].mayHaveExecuted), AtCancel)]);
    }
  }

  lemma HandToWriterTidy(s: State, index: nat, sequence: nat)
    requires Tidy(s) && index < |s.pending|
    ensures Tidy(HandToWriter(s, index, sequence)) && HandToWriter(s, index, sequence).lastInbound == s.lastInbound
  {
    hide Received, Silent;
    var rows := HandToWriter(s, index, sequence).pending;
    assert forall i :: 0 <= i < |rows| ==> rows[i].generation == s.pending[i].generation;
  }

  lemma WriteRowTidy(s: State, index: nat)
    requires Tidy(s) && index < |s.pending|
    ensures Tidy(WriteRow(s, index)) && WriteRow(s, index).lastInbound == s.lastInbound
  {
    hide HandToWriter, FailTerminal, Tidy, Bounded;
    HandToWriterTidy(s, index, s.pending[index].sequence);
    SameTidy(s, AllocateSequence(s));
    HandToWriterTidy(AllocateSequence(s), index, FreshSequence(s));
    TidyBounded(s);
    FailTerminalTidy(s);
  }

  lemma DispatchRowTidy(s: State, index: nat, cancelled: bool)
    requires Tidy(s) && index < |s.pending|
    ensures Tidy(DispatchRow(s, index, cancelled)) && DispatchRow(s, index, cancelled).lastInbound == s.lastInbound
  {
    hide Settle, Cancel, WriteRow, SumOf, Tidy;
    var row := s.pending[index];
    SettleTidy(s, map[row.id := Delivery(Failed(false), AtInvalidate)]);
    SettleTidy(s, map[row.id := Delivery(Failed(false), AtRedispatch)]);
    CancelTidy(s, row.id);
    WriteRowTidy(s, index);
  }

  lemma DispatchReadyTidy(s: State, cancelled: bool)
    requires Tidy(s)
    ensures Tidy(DispatchReady(s, cancelled)) && Remembers(s, DispatchReady(s, cancelled))
  {
    hide DispatchRow, HandleFault, NextWrite, SumOf, Tidy, Bounded, IgnoresFault;
    var index, renewed := NextWrite(s.pending), s.(renewalPending := false);
    SameTidy(s, renewed);
    TidyBounded(renewed);
    HandleFaultTidy(renewed);
    if index < |s.pending| { DispatchRowTidy(s, index, cancelled); }
  }

  lemma TakeFrameTidy(s: State)
    requires Tidy(s) && s.controlQueue != []
    ensures Tidy(s.(controlQueue := s.controlQueue[1..], writeBusy := true))
  {
    hide Scoped;
    assert forall i :: 0 <= i < |s.controlQueue[1..]| ==> s.controlQueue[1..][i] == s.controlQueue[i + 1];
  }

  lemma DispatchNextTidy(s: State, cancelled: bool)
    requires Tidy(s)
    ensures Tidy(DispatchNext(s, cancelled)) && Remembers(s, DispatchNext(s, cancelled))
  {
    hide DispatchReady, Tidy;
    if s.controlQueue != [] { TakeFrameTidy(s); } else { DispatchReadyTidy(s, cancelled); }
  }

  lemma DispatchTidy(s: State, cancelled: bool)
    requires Tidy(s)
    ensures Tidy(Dispatch(s, cancelled)) && Remembers(s, Dispatch(s, cancelled))
  {
    hide DispatchNext, FlushAcknowledgment, SumOf, Tidy;
    DispatchNextTidy(s, cancelled);
    if s.phase != Stopped {
      FlushTidy(s);
      DispatchNextTidy(FlushAcknowledgment(s), cancelled);
      FlushLossy(s);
    }
  }

  lemma FlushLossy(s: State)
    ensures FlushAcknowledgment(s).lossy ==> s.lossy
  {
    hide FailAll, FailSentUnknown, PrepareReplay, FailTerminal, SettleWhere;
    var quiet := s.(pendingAck := 0);
    var cut := InvalidateControls(quiet).(pendingAck := 0, linked := false, writeBusy := false, controlQueue := []);
    InvalidateRest(quiet);
    FailAllRest(cut);
    FailSentRest(cut);
    PrepareRest(cut);
    LossyKept(SettleFault(cut).(phase := Disconnected));
    FailAllRest(FailSentUnknown(cut).(pendingAck := 0, serverCookie := 0, lossy := false, connectSequence := 0,
                                      lastInbound := 0, nextOutbound := 1, sequenceExhausted := false,
                                      nextTid := 1, tidExhausted := false));
  }

  lemma LossyKept(s: State)
    ensures FailTerminal(s).lossy == s.lossy
  {
    hide FailAll, SettleWhere;
    InvalidateRest(s);
    FailAllRest(InvalidateControls(s).(pendingAck := 0, generation := s.generation + 1, terminal := true,
                                       linked := false, writeBusy := false, controlQueue := [],
                                       connectPending := false));
  }

  lemma HandleWrittenTidy(s: State, generation: nat, request: Option<RequestId>, failed: bool)
    requires Tidy(s)
    ensures var t := HandleWritten(s, generation, request, failed); Tidy(t) && Remembers(s, t)
  {
    hide Settle, HandleFault, FindId, Tidy, Bounded, IgnoresFault;
    var idle := s.(writeBusy := false);
    SameTidy(s, idle);
    TidyBounded(idle);
    HandleFaultTidy(idle);
    if request.Some? { SettleTidy(idle, map[request.value := Delivery(Sent, AtWritten)]); }
  }

  // ---------------------------------------------------------------- transports

  lemma StartTransportTidy(s: State, phase: Phase)
    requires Tidy(s) && s.phase == Disconnected && s.transitions == 0 && !s.terminal
    ensures Tidy(StartTransport(s, phase))
  {
    hide Scoped, Received, Silent;
  }

  lemma OpenTransportTidy(s: State, cookieOk: bool)
    requires Tidy(s) && s.phase == Disconnected && s.transitions == 0 && !s.terminal
    ensures Tidy(OpenTransport(s, cookieOk)) && Remembers(s, OpenTransport(s, cookieOk))
  {
    hide FailTerminal, SendReconnect, QueueControl, Tidy, Bounded;
    var again, anew := s.(connectSequence := s.connectSequence + 1), s.(connectSequence := 0);
    TidyBounded(s);
    FailTerminalTidy(s);
    SameTidy(s, again);
    SameTidy(s, anew);
    StartTransportTidy(again, Reconnecting);
    StartTransportTidy(anew, Connecting);
    SendReconnectTidy(StartTransport(again, Reconnecting));
    QueueControlTidy(StartTransport(anew, Connecting), ClientIdentFrame);
  }

  lemma NewIdentityTidy(s: State)
    requires Tidy(s) && s.phase == Disconnected
    ensures var t := ResetForNewIdentity(s);
            && Tidy(t) && t.lastInbound == 0 && t.phase == s.phase && t.transitions == s.transitions
            && t.terminal == s.terminal
  {
    hide FailAll, Received, Silent;
    SilentReceived(s.controlQueue, 0);
    FailAllRest(s.(pendingAck := 0, serverCookie := 0, lossy := false, connectSequence := 0,
                   lastInbound := 0, nextOutbound := 1, sequenceExhausted := false,
                   nextTid := 1, tidExhausted := false));
  }

  /** What was received may be forgotten: the connection is lossy, the server resets, or is another one. */
  predicate MayForget(s: State, event: Event) {
    || s.lossy
    || (event.ControlEvent? && event.control.SessionReset?)
    || (event.ConnectedEvent? && event.connection.Transport? && event.connection.identityChanged)
  }

  lemma OpenedTidy(s: State)
    requires Tidy(s) && s.phase == Disconnected
    ensures Tidy(s.(connectPending := false))
    ensures Tidy(s.(connectPending := false, terminal := false, transitions := 0))
  {
    hide Scoped, Received, Silent;
  }

  lemma AdoptTidy(s: State, connection: Connection)
    requires Tidy(s) && s.phase == Disconnected && s.transitions == 0 && !s.terminal && connection.Transport?
    ensures var t := OpenTransport(if connection.identityChanged then ResetForNewIdentity(s)
                                   else s, connection.cookieOk);
            Tidy(t) && (Remembers(s, t) || (connection.identityChanged && t.lastInbound == 0))
  {
    hide OpenTransport, ResetForNewIdentity, Tidy;
    NewIdentityTidy(s);
    OpenTransportTidy(s, connection.cookieOk);
    OpenTransportTidy(ResetForNewIdentity(s), connection.cookieOk);
  }

  lemma OpenTidy(s: State, connection: Connection)
    requires Tidy(s) && s.phase == Disconnected && s.transitions == 0 && !s.terminal && connection.Transport?
    ensures var known := s.(connectedOnce := true);
            var t := if s.connectedOnce && !connection.globalOk then FailTerminal(s)
                     else if !connection.identityOk then FailTerminal(known)
                     else OpenTransport(if connection.identityChanged then ResetForNewIdentity(known)
                                        else known, connection.cookieOk);
            Tidy(t) && (Remembers(s, t) || (connection.identityChanged && t.lastInbound == 0))
  {
    hide FailTerminal, OpenTransport, ResetForNewIdentity, Tidy, Bounded;
    var known := s.(connectedOnce := true);
    SameTidy(s, known);
    TidyBounded(s);
    TidyBounded(known);
    FailTerminalTidy(s);
    FailTerminalTidy(known);
    AdoptTidy(known, connection);
  }

  lemma HandleConnectedTidy(s: State, generation: nat, connection: Connection)
    requires Tidy(s) && R.Resting(s) && s.phase != Stopped
    ensures var t := HandleConnected(s, generation, connection);
            && Tidy(t)
            && (Remembers(s, t) || (connection.Transport? && connection.identityChanged && t.lastInbound == 0))
  {
    hide FailTerminal, BeginReconnect, OpenTransport, ResetForNewIdentity, Tidy, Bounded, R.Rewound;
    if generation == s.generation && s.connectPending {
      OpenedTidy(s);
      var idle := s.(connectPending := false);
      BeginReconnectTidy(idle);
      if connection.Transport? { OpenTidy(idle.(terminal := false, transitions := 0), connection); }
    }
  }

  lemma StopTidy(s: State)
    requires Tidy(s)
    ensures Tidy(Stop(s)) && Stop(s).lastInbound == s.lastInbound
  {
    hide FailAll, InvalidateControls, Received, Silent;
    InvalidateRest(s);
    FailAllRest(InvalidateControls(s).(phase := Stopped));
    NoneScoped(Stop(s).controlGeneration);
  }

  // ---------------------------------------------------------------- steps

  /** The sequence of the message that the owner takes with this event: it comes on the ready transport, is new,
      and acknowledges nothing that was not sent. */
  function Taken(s: State, event: Event): (sequence: Option<nat>) {
    if event.MessageEvent? && event.generation == s.generation && !s.terminal && s.phase == Ready
       && R.GivenOut(s, event.message.acknowledged) && s.lastInbound < event.message.sequence
    then Some(event.message.sequence) else None
  }

  /** The step remembers the message taken, or else what was remembered, and acknowledges it. */
  ghost predicate Hears(s: State, event: Event, t: State) {
    var taken := Taken(s, event);
    && Tidy(t)
    && (t.lastInbound == (if taken.Some? then taken.value else s.lastInbound)
        || (MayForget(s, event) && t.lastInbound == 0))
    && (taken.Some? ==> t.phase == Disconnected || t.pendingAck == taken.value)
  }

  lemma ReadFrameHears(s: State, event: Event)
    requires event.MessageEvent? || event.ControlEvent? || event.ReadErrorEvent?
    requires Tidy(s)
    ensures Hears(s, event, ReadFrame(s, event))
  {
    hide AcceptMessage, HandleControl, FailTerminal, HandleFault, Tidy, Bounded, IgnoresFault;
    TidyBounded(s);
    HandleFaultTidy(s);
    match event
    case MessageEvent(_, message, queueFull) =>
      if Taken(s, event).Some? { AcceptMessageTakes(s, message, queueFull); }
    case ControlEvent(_, control) => if !s.terminal { HandleControlTidy(s, control); }
    case ReadErrorEvent(_, _) => FailTerminalTidy(s);
  }

  lemma StepHears(s: State, event: Event)
    requires s.nextTid <= MAX_UINT64 && Tidy(s) && R.Resting(s)
    ensures Hears(s, event, Step(s, event))
  {
    hide Tidy, R.Resting, Submit, Cancel, Stop, ReadFrame, HandleWritten, HandleFault, HandleConnected, Dispatch,
        FlushAcknowledgment, Bounded, IgnoresFault;
    if s.phase != Stopped {
      match event
      case DispatchEvent(cancelled) => DispatchTidy(s, cancelled);
      case SubmitEvent(command, cancelled) => SubmitTidy(s, command, cancelled);
      case CancelEvent(id) => CancelTidy(s, id);
      case StopEvent => StopTidy(s);
      case MessageEvent(_, _, _) => ReadFrameHears(s, event);
      case ControlEvent(_, _) => ReadFrameHears(s, event);
      case ReadErrorEvent(_, _) => ReadFrameHears(s, event);
      case WrittenEvent(generation, request, failed) => HandleWrittenTidy(s, generation, request, failed);
      case FaultEvent(_) =>
        TidyBounded(s);
        HandleFaultTidy(s);
      case RenewalEvent(_) => SameTidy(s, s.(renewalPending := true));
      case ConnectedEvent(generation, connection) => HandleConnectedTidy(s, generation, connection);
      case AckTimerEvent => FlushTidy(s);
    }
  }

  // ---------------------------------------------------------------- runs

  lemma StartTidy(config: Config, transport: bool, serverCookie: nat, connectSequence: nat)
    ensures var s := Start(config, transport, serverCookie, connectSequence); Tidy(s) && s.lastInbound == 0
  {
    var idle := Idle(config, transport, serverCookie, connectSequence);
    assert Tidy(idle);
    if !transport { BeginReconnectTidy(idle); }
  }

  /** After every step of every run: only what was received is acknowledged, and only on a ready transport; control
      requests belong to the transport there is; attempts and handshake steps are within their limits. */
  lemma {:induction false} RunTidy(states: seq<State>, events: seq<Event>, i: nat)
    requires IsRun(states, events) && i < |states|
    ensures Tidy(states[i])
  {
    hide Tidy, Step, Start;
    if i == 0 {
      var config, transport, cookie, sequence :| states[0] == Start(config, transport, cookie, sequence);
      StartTidy(config, transport, cookie, sequence);
    } else {
      RunTidy(states, events, i - 1);
      RunHears(states, events, i - 1);
    }
  }

  lemma RunHears(states: seq<State>, events: seq<Event>, i: nat)
    requires IsRun(states, events) && i < |events| && Tidy(states[i])
    ensures Hears(states[i], events[i], states[i + 1])
  {
    hide Tidy, Step, Start, Hears, R.Resting;
    R.RunRests(states, events, i);
    StepHears(states[i], events[i]);
  }

  /** What is remembered as received was taken from some message. */
  lemma {:induction false} InboundWasTaken(states: seq<State>, events: seq<Event>, i: nat) returns (j: nat)
    requires IsRun(states, events) && i < |states| && states[i].lastInbound != 0
    ensures j < i && Taken(states[j], events[j]) == Some(states[i].lastInbound)
  {
    hide Tidy, Step, Start, Taken, MayForget;
    if i == 0 {
      var config, transport, cookie, sequence :| states[0] == Start(config, transport, cookie, sequence);
      StartTidy(config, transport, cookie, sequence);
      assert false;
    }
    RunTidy(states, events, i - 1);
    RunHears(states, events, i - 1);
    if Taken(states[i - 1], events[i - 1]).Some? { j := i - 1; } else { j := InboundWasTaken(states, events, i - 1); }
  }

  /** The message that was taken at `i`, or a later one, is the last received until something may forget it. */
  lemma {:induction false} StaysReceived(states: seq<State>, events: seq<Event>, i: nat, j: nat)
    requires IsRun(states, events) && i < j < |states| && Taken(states[i], events[i]).Some?
    requires forall m :: i <= m < j ==> !MayForget(states[m], events[m])
    ensures Taken(states[i], events[i]).value <= states[j].lastInbound
  {
    hide Tidy, Step, Start, MayForget;
    RunTidy(states, events, j - 1);
    RunHears(states, events, j - 1);
    if i < j - 1 { StaysReceived(states, events, i, j - 1); }
  }

  /** No message is taken twice, nor one behind another: until something may forget it, each message that is taken
      has a greater sequence than all taken before it. */
  lemma TakenOnce(states: seq<State>, events: seq<Event>, i: nat, j: nat)
    requires IsRun(states, events) && i < j < |events|
    requires Taken(states[i], events[i]).Some? && Taken(states[j], events[j]).Some?
    requires forall m :: i <= m < j ==> !MayForget(states[m], events[m])
    ensures Taken(states[i], events[i]).value < Taken(states[j], events[j]).value
  {
    hide Step, Start, MayForget;
    StaysReceived(states, events, i, j);
  }

  /** A message that is not new, on a ready transport, changes nothing at all. */
  lemma DuplicateIgnored(s: State, event: Event)
    requires s.nextTid <= MAX_UINT64 && event.MessageEvent? && s.phase == Ready
    requires R.GivenOut(s, event.message.acknowledged) && event.message.sequence <= s.lastInbound
    ensures Step(s, event) == s
  {
  }
}
