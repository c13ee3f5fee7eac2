/** What each branch of the owner's loop does, as functions on State. */
module SessionSteps {
  import opened Common
  import opened SessionState

  // ---------------------------------------------------------------- table

  function InFlight(s: State): (n: nat) { SumOf(s.pending, InFlightRow) }

  function Deliveries(results: map<RequestId, seq<Delivery>>, id: RequestId): (list: seq<Delivery>) {
    if id in results then results[id] else []
  }

  /** One more result for each request named in `deliver`. */
  function Delivered(results: map<RequestId, seq<Delivery>>, deliver: map<RequestId, Delivery>)
    : (results': map<RequestId, seq<Delivery>>)
  {
    map id | id in results.Keys + deliver.Keys ::
      Deliveries(results, id) + (if id in deliver then [deliver[id]] else [])
  }

  /** Each row named in `deliver` leaves the table and its result is sent. */
  function Settle(s: State, deliver: map<RequestId, Delivery>): (t: State) {
    s.(pending := Drop(s.pending, deliver.Keys),
       replay := DropIds(s.replay, deliver.Keys),
       results := Delivered(s.results, deliver))
  }

  /** The rows satisfying `chosen` are settled, all from `site`, with ErrOutcomeUnknown
      exactly for the rows satisfying `unknown`. */
  function SettleWhere(s: State, chosen: Entry -> bool, unknown: Entry -> bool, site: Site): (t: State) {
    Settle(s, Chosen(s.pending, chosen, unknown, site))
  }

  function Chosen(rows: seq<Entry>, chosen: Entry -> bool, unknown: Entry -> bool, site: Site)
    : (deliver: map<RequestId, Delivery>)
  {
    if rows == [] then map[]
    else
      var rest := Chosen(rows[..|rows| - 1], chosen, unknown, site);
      var row := rows[|rows| - 1];
      if chosen(row) then rest[row.id := Delivery(Failed(unknown(row)), site)] else rest
  }

  predicate AnyRow(row: Entry) { true }
  predicate NoRow(row: Entry) { false }
  predicate SentRow(row: Entry) { row.sent }
  predicate ExecutedRow(row: Entry) { row.mayHaveExecuted }
  predicate ScopedRow(row: Entry) { row.generation != 0 }

  function InvalidateControls(s: State): (t: State) {
    SettleWhere(s, ScopedRow, NoRow, AtInvalidate).(controlGeneration := s.controlGeneration + 1)
  }

  function FailAll(s: State): (t: State) {
    SettleWhere(s, AnyRow, ExecutedRow, AtFailAll)
  }

  function FailSentUnknown(s: State): (t: State) {
    SettleWhere(s, SentRow, AnyRow, AtFailSent).(replay := [])
  }

  function Unsend(rows: seq<Entry>, ids: seq<RequestId>): (t: seq<Entry>)
    ensures |t| == |rows|
    ensures forall i :: 0 <= i < |rows| ==>
      t[i] == if rows[i].id in ids then rows[i].(sent := false) else rows[i]
  {
    seq(|rows|, i requires 0 <= i < |rows| => if rows[i].id in ids then rows[i].(sent := false) else rows[i])
  }

  function PrepareReplay(s: State): (t: State) {
    s.(pending := Unsend(s.pending, s.replay))
  }

  /** The sequence of the row with this id; zero when there is none. */
  function SequenceOf(rows: seq<Entry>, id: RequestId): (sequence: nat) {
    var index := FindId(rows, id);
    if index < |rows| then rows[index].sequence else 0
  }

  /** Only an acknowledged prefix of the replay list is dropped. */
  function Trimmed(replay: seq<RequestId>, rows: seq<Entry>, sequence: nat): (rest: seq<RequestId>)
    ensures |rest| <= |replay| && rest == replay[|replay| - |rest|..]
    ensures forall i :: 0 <= i < |replay| - |rest| ==> SequenceOf(rows, replay[i]) <= sequence
    ensures rest != [] ==> SequenceOf(rows, rest[0]) > sequence
  {
    if replay != [] && SequenceOf(rows, replay[0]) <= sequence then Trimmed(replay[1..], rows, sequence) else replay
  }

  function TrimReplay(s: State, sequence: nat): (t: State) {
    s.(replay := Trimmed(s.replay, s.pending, sequence))
  }

  // ---------------------------------------------------------------- faults

  function ResetForNewIdentity(s: State): (t: State) {
    FailAll(s.(pendingAck := 0, serverCookie := 0, lossy := false, connectSequence := 0,
               lastInbound := 0, nextOutbound := 1, sequenceExhausted := false,
               nextTid := 1, tidExhausted := false))
  }

  function FailTerminal(s: State): (t: State) {
    FailAll(InvalidateControls(s).(pendingAck := 0, generation := s.generation + 1, terminal := true,
                                   linked := false, writeBusy := false, controlQueue := [],
                                   connectPending := false)).(phase := Disconnected)
  }

  function BeginReconnect(s: State): (t: State) {
    if s.config.maxReconnects > 0 && s.reconnectAttempts >= s.config.maxReconnects then FailTerminal(s)
    else s.(reconnectAttempts := s.reconnectAttempts + 1, connectPending := true,
            generation := s.generation + 1)
  }

  predicate IgnoresFault(s: State) {
    s.terminal || s.phase == Stopped || (s.phase == Disconnected && s.connectPending)
  }

  /** What a fault does to the requests, by connection kind and policy. */
  function SettleFault(s: State): (t: State) {
    if s.lossy then ResetForNewIdentity(FailSentUnknown(s))
    else if s.config.policy == FailPending then FailAll(s)
    else if s.serverCookie == 0 then FailSentUnknown(s)
    else PrepareReplay(s)
  }

  function HandleFault(s: State): (t: State) {
    if IgnoresFault(s) then s
    else
      var cut := InvalidateControls(s).(pendingAck := 0, linked := false, writeBusy := false, controlQueue := []);
      BeginReconnect(SettleFault(cut).(phase := Disconnected))
  }

  // ---------------------------------------------------------------- control frames out

  function QueueControl(s: State, frame: ControlFrame): (t: State) {
    if !s.config.fits(frame) then HandleFault(s)
    else if |s.controlQueue| + (if s.pendingAck != 0 then 1 else 0) >= s.config.maxQueued then HandleFault(s)
    else s.(controlQueue := s.controlQueue + [frame])
  }

  function FlushAcknowledgment(s: State): (t: State) {
    if s.pendingAck != 0 then QueueControl(s.(pendingAck := 0), AckFrame(s.pendingAck)) else s
  }

  function QueueAcknowledgment(s: State, sequence: nat): (t: State) {
    if s.phase != Ready then QueueControl(s, AckFrame(sequence))
    else if s.pendingAck != 0 then s.(pendingAck := sequence)
    else if |s.controlQueue| >= s.config.maxQueued then HandleFault(s)
    else s.(pendingAck := sequence)
  }

  function SendReconnect(s: State): (t: State) {
    QueueControl(s.(controlQueue := []), ReconnectFrame(s.connectSequence, s.lastInbound))
  }

  // ---------------------------------------------------------------- admission

  function Row(command: Command, tid: nat): (row: Entry) {
    Entry(command.id, tid, command.bytes, command.control, command.oneWay, command.generation, 0, false, false)
  }

  predicate Saturated(s: State, command: Command) {
    if command.control then
      || SumOf(s.pending, ControlRow) >= MAX_CONTROL_MESSAGES
      || SumOf(s.pending, ControlBytes) + command.bytes > MAX_CONTROL_RETAINED_BYTES
    else
      || |s.pending| - SumOf(s.pending, ControlRow) >= s.config.maxQueued
      || SumOf(s.pending, ApplicationBytes) + command.bytes > s.config.maxRetained
  }

  predicate Refused(s: State, command: Command, cancelled: bool) {
    || (command.generation != 0 && command.generation != s.controlGeneration)
    || cancelled
    || s.terminal
    || (command.control && !command.validControl)
    || !command.wellFormed
    || Saturated(s, command)
    || (command.tid != 0 && command.tid in Tids(s.pending))
  }

  datatype TakenTid = TakenTid(tid: Option<nat>, next: nat, exhausted: bool)

  /** The owner's transaction-id search: skip ids still in use, never wrap. */
  function TakeTid(used: set<nat>, next: nat, exhausted: bool): (taken: TakenTid)
    requires next <= MAX_UINT64
    ensures taken.next <= MAX_UINT64
    ensures taken.tid.Some? ==> 1 <= taken.tid.value <= MAX_UINT64 && taken.tid.value !in used
    ensures taken.tid.Some? ==>
              next <= taken.tid.value && forall tid :: 1 <= tid && next <= tid < taken.tid.value ==> tid in used
    ensures taken.tid.None? ==> exhausted || forall tid :: 1 <= tid && next <= tid <= MAX_UINT64 ==> tid in used
    decreases if exhausted then 0 else MAX_UINT64 - next + 1, next == 0
  {
    if exhausted then TakenTid(None, next, exhausted)
    else
      var tid := if next == 0 then 1 else next;
      var next' := if tid == MAX_UINT64 then 0 else tid + 1;
      var exhausted' := tid == MAX_UINT64;
      if tid !in used then TakenTid(Some(tid), next', exhausted') else TakeTid(used, next', exhausted')
  }

  function Admit(s: State, command: Command, tid: nat): (t: State) {
    s.(pending := s.pending + [Row(command, tid)],
       admissions := s.admissions[command.id := s.admitted], admitted := s.admitted + 1)
  }

  function Record(s: State, command: Command, deliveries: seq<Delivery>): (t: State) {
    s.(commands := s.commands[command.id := command], results := s.results[command.id := deliveries])
  }

  function Submit(s: State, command: Command, cancelled: bool): (t: State)
    requires s.nextTid <= MAX_UINT64
  {
    var refusal := [Delivery(Failed(false), AtSubmit)];
    if Refused(s, command, cancelled) then Record(s, command, refusal)
    else if command.tid != 0 then Admit(Record(s, command, []), command, command.tid)
    else
      var taken := TakeTid(Tids(s.pending), s.nextTid, s.tidExhausted);
      var numbered := s.(nextTid := taken.next, tidExhausted := taken.exhausted);
      if taken.tid.None? then Record(FailTerminal(numbered), command, refusal)
      else Admit(Record(numbered, command, []), command, taken.tid.value)
  }

  function Cancel(s: State, id: RequestId): (t: State) {
    var index := FindId(s.pending, id);
    if index == |s.pending| then s
    else Settle(s, map[id := Delivery(Failed(s.pending[index].mayHaveExecuted), AtCancel)])
  }

  // ---------------------------------------------------------------- dispatch

  /** The unsent replay with the least sequence, or |rows|; `best` is the best so far. */
  function LeastReplay(rows: seq<Entry>, from: nat, best: nat): (index: nat)
    requires from <= |rows| && best <= |rows|
    requires best < |rows| ==> best < from && UnsentReplay(rows[best])
    ensures index <= |rows|
    ensures index < |rows| ==> UnsentReplay(rows[index])
    decreases |rows| - from
  {
    if from == |rows| then best
    else if UnsentReplay(rows[from]) && (best == |rows| || rows[from].sequence < rows[best].sequence)
    then LeastReplay(rows, from + 1, from)
    else LeastReplay(rows, from + 1, best)
  }

  /** The row to write next, or |rows|. */
  function NextWrite(rows: seq<Entry>): (index: nat)
    ensures index <= |rows|
    ensures index < |rows| ==> !rows[index].sent
  {
    if SumOf(rows, ControlRow) == 0 then FirstIndex(rows, Unsent, 0)
    else
      var replay := LeastReplay(rows, 0, |rows|);
      var control := FirstIndex(rows, UnsentControl, 0);
      if replay < |rows| then replay
      else if control < |rows| then control
      else FirstIndex(rows, UnsentApplication, 0)
  }

  function FreshSequence(s: State): (sequence: nat) {
    if s.nextOutbound == 0 then 1 else s.nextOutbound
  }

  function AllocateSequence(s: State): (t: State) {
    s.(sequenceExhausted := FreshSequence(s) == MAX_UINT64,
       nextOutbound := if FreshSequence(s) == MAX_UINT64 then 0 else FreshSequence(s) + 1)
  }

  /** The chosen row goes to the writer under `sequence`. */
  function HandToWriter(s: State, index: nat, sequence: nat): (t: State)
    requires index < |s.pending|
  {
    var row := s.pending[index];
    s.(pending := s.pending[index := row.(sequence := sequence, sent := true, mayHaveExecuted := true)],
       replay := if row.id in s.replay then s.replay else s.replay + [row.id],
       pendingAck := 0,
       writeBusy := true,
       dispatched := s.dispatched + {row.id},
       written := s.written + [Write(row.id, sequence, row.sequence != 0, row.control)])
  }

  /** A replay keeps its sequence; a new row takes the next one, or ends the session. */
  function WriteRow(s: State, index: nat): (t: State)
    requires index < |s.pending|
  {
    if s.pending[index].sequence != 0 then HandToWriter(s, index, s.pending[index].sequence)
    else if s.sequenceExhausted then FailTerminal(s)
    else HandToWriter(AllocateSequence(s), index, FreshSequence(s))
  }

  function DispatchRow(s: State, index: nat, cancelled: bool): (t: State)
    requires index < |s.pending|
  {
    var row := s.pending[index];
    if row.generation != 0 && row.generation != s.controlGeneration then
      Settle(s, map[row.id := Delivery(Failed(false), AtInvalidate)])
    else if !row.control && InFlight(s) >= s.config.maxInFlight then s
    else if cancelled && row.control then Cancel(s, row.id)
    else if cancelled then Settle(s, map[row.id := Delivery(Failed(false), AtRedispatch)])
    else WriteRow(s, index)
  }

  function DispatchReady(s: State, cancelled: bool): (t: State) {
    var index := NextWrite(s.pending);
    if s.renewalPending && (index == |s.pending| || !s.pending[index].control) then
      if InFlight(s) == 0 then HandleFault(s.(renewalPending := false)) else s
    else if index < |s.pending| then DispatchRow(s, index, cancelled)
    else s
  }

  /** Control frames go first, and messages only once the handshake is over. */
  function DispatchNext(s: State, cancelled: bool): (t: State) {
    if s.controlQueue != [] then s.(controlQueue := s.controlQueue[1..], writeBusy := true)
    else if s.phase != Ready then s
    else DispatchReady(s, cancelled)
  }

  function Dispatch(s: State, cancelled: bool): (t: State) {
    if s.writeBusy || !s.linked || s.phase in {Disconnected, Waiting, Stopped} then s
    else
      DispatchNext(if s.renewalPending && s.pendingAck != 0 && InFlight(s) == 0 then FlushAcknowledgment(s)
                   else s, cancelled)
  }

  // ---------------------------------------------------------------- frames in

  predicate BadAcknowledgment(s: State, sequence: nat) {
    !s.sequenceExhausted && sequence >= s.nextOutbound && sequence != 0
  }

  datatype Inbound = Inbound(sequence: nat, acknowledged: nat, tid: nat)

  /** An accepted, new message: the reply to a pending application request, or unsolicited. */
  function AcceptMessage(s: State, message: Inbound, queueFull: bool): (t: State) {
    var trimmed := TrimReplay(s.(lastInbound := message.sequence), message.acknowledged);
    var index := FindTid(trimmed.pending, message.tid);
    if index < |trimmed.pending| && !trimmed.pending[index].control then
      QueueAcknowledgment(Settle(trimmed, map[trimmed.pending[index].id := Delivery(Replied, AtReply)]),
                          message.sequence)
    else
      var acked := QueueAcknowledgment(trimmed, message.sequence);
      if acked.controlGeneration == s.controlGeneration && queueFull then FailTerminal(acked) else acked
  }

  function HandleMessage(s: State, message: Inbound, queueFull: bool): (t: State) {
    if s.phase != Ready || BadAcknowledgment(s, message.acknowledged) then HandleFault(s)
    else if message.sequence <= s.lastInbound then s
    else AcceptMessage(s, message, queueFull)
  }

  datatype Control =
    | Ack(sequence: nat)
    | Keepalive
    | KeepaliveAck
    | SessionReset(full: bool, cookieOk: bool)
    | SessionRetry(connectSequence: nat)
    | SessionRetryGlobal(globalOk: bool)
    | Wait
    | ReconnectOk(messageSequence: nat)
    | ServerIdent(featuresOk: bool, endpointOk: bool, cookie: nat, isLossy: bool)
    | MissingFeatures
    | Unexpected

  function HandleReset(s: State, full: bool, cookieOk: bool): (t: State) {
    var cut := InvalidateControls(s.(pendingAck := 0)).(serverCookie := 0, lossy := false, connectSequence := 0,
                                                        lastInbound := 0);
    if full && !cookieOk then FailTerminal(cut)
    else
      var reset :=
        if full then FailAll(cut.(nextOutbound := 1, sequenceExhausted := false, nextTid := 1, tidExhausted := false))
        else PrepareReplay(cut);
      QueueControl(reset.(phase := Connecting), ClientIdentFrame)
  }

  function HandleServerIdent(s: State, ident: Control): (t: State)
    requires ident.ServerIdent?
  {
    var counted := s.(transitions := s.transitions + 1);
    if s.phase != Connecting then HandleFault(s)
    else if counted.transitions > s.config.maxTransitions then HandleFault(counted)
    else if !ident.featuresOk then FailTerminal(counted)
    else if !ident.endpointOk then HandleFault(counted)
    else FailSentUnknown(counted.(serverCookie := ident.cookie, lossy := ident.isLossy, reconnectAttempts := 0))
         .(phase := Ready)
  }

  function HandleReconnectOk(s: State, sequence: nat): (t: State) {
    if BadAcknowledgment(s, sequence) then HandleFault(s)
    else PrepareReplay(TrimReplay(s, sequence)).(reconnectAttempts := 0, phase := Ready)
  }

  /** The controls that are only accepted while reconnecting. */
  function HandleTransition(s: State, control: Control): (t: State)
    requires control.SessionReset? || control.SessionRetry? || control.SessionRetryGlobal? || control.ReconnectOk?
  {
    var counted := s.(transitions := s.transitions + 1);
    if s.phase != Reconnecting then HandleFault(s)
    else if counted.transitions > s.config.maxTransitions then HandleFault(counted)
    else match control
      case SessionReset(full, cookieOk) => HandleReset(counted, full, cookieOk)
      case SessionRetry(sequence) =>
        if sequence >= MAX_UINT64 then FailTerminal(counted)
        else SendReconnect(counted.(connectSequence := sequence + 1))
      case SessionRetryGlobal(globalOk) => if globalOk then SendReconnect(counted) else FailTerminal(counted)
      case ReconnectOk(sequence) => HandleReconnectOk(counted, sequence)
  }

  function HandleControl(s: State, control: Control): (t: State) {
    match control
    case Ack(sequence) =>
      if s.phase != Ready || BadAcknowledgment(s, sequence) then HandleFault(s) else TrimReplay(s, sequence)
    case Keepalive => if s.phase != Ready then HandleFault(s) else QueueControl(s, KeepaliveAckFrame)
    case KeepaliveAck => if s.phase != Ready then HandleFault(s) else s
    case Wait =>
      if s.phase != Connecting && s.phase != Reconnecting then HandleFault(s)
      else HandleFault(s.(transitions := s.transitions + 1, phase := Waiting))
    case ServerIdent(_, _, _, _) => HandleServerIdent(s, control)
    case MissingFeatures => FailTerminal(s)
    case Unexpected => HandleFault(s)
    case _ => HandleTransition(s, control)
  }

  // ---------------------------------------------------------------- transports

  function StartTransport(s: State, phase: Phase): (t: State) {
    s.(linked := true, generation := s.generation + 1, phase := phase, written := [])
  }

  /** The connector's answer: a transport or not, and what the owner learns from it. */
  datatype Connection = NoTransport | Transport(globalOk: bool, identityOk: bool, identityChanged: bool, cookieOk: bool)

  function OpenTransport(s: State, cookieOk: bool): (t: State) {
    if s.serverCookie != 0 then
      if s.connectSequence >= MAX_UINT64 then FailTerminal(s)
      else SendReconnect(StartTransport(s.(connectSequence := s.connectSequence + 1), Reconnecting))
    else if !cookieOk then FailTerminal(s)
    else QueueControl(StartTransport(s.(connectSequence := 0), Connecting), ClientIdentFrame)
  }

  function HandleConnected(s: State, generation: nat, connection: Connection): (t: State) {
    if generation != s.generation || !s.connectPending then s
    else
      var idle := s.(connectPending := false);
      if connection.NoTransport? then BeginReconnect(idle)
      else
        var open := idle.(terminal := false, transitions := 0);
        if open.connectedOnce && !connection.globalOk then FailTerminal(open)
        else
          var known := open.(connectedOnce := true);
          if !connection.identityOk then FailTerminal(known)
          else OpenTransport(if connection.identityChanged then ResetForNewIdentity(known)
                             else known, connection.cookieOk)
  }

  function HandleWritten(s: State, generation: nat, request: Option<RequestId>, failed: bool): (t: State) {
    if generation != s.generation then s
    else
      var idle := s.(writeBusy := false);
      if failed then HandleFault(idle)
      else if request.None? then idle
      else
        var index := FindId(idle.pending, request.value);
        if index < |idle.pending| && idle.pending[index].oneWay then
          Settle(idle, map[request.value := Delivery(Sent, AtWritten)])
        else idle
  }

  function Stop(s: State): (t: State) {
    FailAll(InvalidateControls(s).(phase := Stopped))
  }

  // ---------------------------------------------------------------- runs

  datatype Event =
    | DispatchEvent(cancelled: bool)
    | SubmitEvent(command: Command, cancelled: bool)
    | CancelEvent(id: RequestId)
    | StopEvent
    | MessageEvent(generation: nat, message: Inbound, queueFull: bool)
    | ControlEvent(generation: nat, control: Control)
    | ReadErrorEvent(generation: nat, budgetExceeded: bool)
    | WrittenEvent(generation: nat, request: Option<RequestId>, failed: bool)
    | FaultEvent(generation: nat)
    | RenewalEvent(generation: nat)
    | ConnectedEvent(generation: nat, connection: Connection)
    | AckTimerEvent

  function ReadFrame(s: State, event: Event): (t: State)
    requires event.MessageEvent? || event.ControlEvent? || event.ReadErrorEvent?
  {
    if event.generation != s.generation || s.terminal then s
    else match event
      case MessageEvent(_, message, queueFull) => HandleMessage(s, message, queueFull)
      case ControlEvent(_, control) => HandleControl(s, control)
      case ReadErrorEvent(_, budgetExceeded) => if budgetExceeded then FailTerminal(s) else HandleFault(s)
  }

  /** One turn of the owner's loop. A stopped owner has left the loop. */
  function Step(s: State, event: Event): (t: State)
    requires s.nextTid <= MAX_UINT64
  {
    if s.phase == Stopped then s
    else match event
      case DispatchEvent(cancelled) => Dispatch(s, cancelled)
      case SubmitEvent(command, cancelled) => Submit(s, command, cancelled)
      case CancelEvent(id) => Cancel(s, id)
      case StopEvent => Stop(s)
      case MessageEvent(_, _, _) => ReadFrame(s, event)
      case ControlEvent(_, _) => ReadFrame(s, event)
      case ReadErrorEvent(_, _) => ReadFrame(s, event)
      case WrittenEvent(generation, request, failed) => HandleWritten(s, generation, request, failed)
      case FaultEvent(generation) => if generation == s.generation then HandleFault(s) else s
      case RenewalEvent(generation) => if generation == s.generation then s.(renewalPending := true) else s
      case ConnectedEvent(generation, connection) => HandleConnected(s, generation, connection)
      case AckTimerEvent => FlushAcknowledgment(s)
  }

  /** The owner as constructed, before its loop starts. */
  function Idle(config: Config, transport: bool, serverCookie: nat, connectSequence: nat): (s: State) {
    State(config, Disconnected, false, 0, false, [], 0, [], [], 1, false, 0, 1, false, serverCookie, false,
          connectSequence, transport, 0, 0, false, false, false, 1, map[], {}, map[], [], map[], 0)
  }

  /** The state in which the loop starts: on a given transport, or asking for one. */
  function Start(config: Config, transport: bool, serverCookie: nat, connectSequence: nat): (s: State) {
    var idle := Idle(config, transport, serverCookie, connectSequence);
    if transport then StartTransport(idle, Ready) else BeginReconnect(idle)
  }
}
