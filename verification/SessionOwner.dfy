/** The owner of a session as it runs: its fields, its request table, and one method for each branch
    of its loop. Every branch is proved to do to the owner what SessionSteps says it does, so that
    the theorems about runs hold of the array, the lists, the maps and the counters. */
module SessionOwner {
  import opened Common
  import opened SessionState
  import opened SessionSteps
  import opened SessionInvariant
  import opened RequestTable
  import SessionRuns
  import SettleLoops

  /** The owner's plain fields. */
  datatype Fields = Fields(
    phase: Phase,
    linked: bool,
    generation: nat,
    writeBusy: bool,
    controlQueue: seq<ControlFrame>,
    pendingAck: nat,
    nextOutbound: nat,
    sequenceExhausted: bool,
    lastInbound: nat,
    nextTid: nat,
    tidExhausted: bool,
    serverCookie: nat,
    lossy: bool,
    connectSequence: nat,
    connectedOnce: bool,
    reconnectAttempts: nat,
    transitions: nat,
    connectPending: bool,
    terminal: bool,
    renewalPending: bool,
    controlGeneration: nat)

  /** What the outside has seen of the owner. */
  datatype Seen = Seen(
    commands: map<RequestId, Command>,
    dispatched: set<RequestId>,
    results: map<RequestId, seq<Delivery>>,
    written: seq<Write>,
    admissions: map<RequestId, nat>,
    admitted: nat)

  ghost function Joined(config: Config, f: Fields, rows: seq<Entry>, replay: seq<RequestId>, seen: Seen): (s: State) {
    State(config, f.phase, f.linked, f.generation, f.writeBusy, f.controlQueue, f.pendingAck, rows, replay,
          f.nextOutbound,
          f.sequenceExhausted, f.lastInbound, f.nextTid, f.tidExhausted, f.serverCookie, f.lossy, f.connectSequence,
          f.connectedOnce, f.reconnectAttempts, f.transitions, f.connectPending, f.terminal, f.renewalPending,
          f.controlGeneration, seen.commands, seen.dispatched, seen.results, seen.written, seen.admissions,
              seen.admitted)
  }

  /** The plain fields of a state. */
  ghost function FieldsOf(s: State): (f: Fields) {
    Fields(s.phase, s.linked, s.generation, s.writeBusy, s.controlQueue, s.pendingAck, s.nextOutbound,
           s.sequenceExhausted,
           s.lastInbound, s.nextTid, s.tidExhausted, s.serverCookie, s.lossy, s.connectSequence, s.connectedOnce,
           s.reconnectAttempts, s.transitions, s.connectPending, s.terminal, s.renewalPending, s.controlGeneration)
  }

  class Owner {
    const config: Config
    const table: Table
    var f: Fields
    ghost var seen: Seen

    /** The owner before its loop starts. */
    constructor (config: Config, transport: bool, serverCookie: nat, connectSequence: nat)
      ensures table.Valid() && Abs() == Idle(config, transport, serverCookie, connectSequence) && this.config == config
      ensures fresh(table) && fresh(Nodes(table.order))
    {
      this.config := config;
      table := new Table();
      f := Fields(Disconnected, false, 0, false, [], 0, 1, false, 0, 1, false, serverCookie, false, connectSequence,
                  transport,
                  0, 0, false, false, false, 1);
      seen := Seen(map[], {}, map[], [], map[], 0);
    }

    /** The owner as a value. */
    ghost function Abs(): (s: State)
      reads this, table, Nodes(table.order)
    {
      Joined(config, f, table.Rows(), table.Replay(), seen)
    }

    /** The fields are those of the value. */
    lemma Mirrors()
      ensures FieldsOf(Abs()) == f && Abs().config == config && Abs().pending == table.Rows()
    {
    }

    // -------------------------------------------------------------- settling

    method InvalidateControls()
      requires table.Valid()
      modifies this, table, Nodes(table.order)
      ensures table.Valid() && Nodes(table.order) <= old(Nodes(table.order))
      ensures Abs() == SessionSteps.InvalidateControls(old(Abs()))
    {
      hide Table.ListOk, Table.ReplayOk, Flagged, Table.Counted, Mapped, Table.Rows, Table.Replay, Nodes, Chosen, Drop,
           DropIds, Delivered;
      var deliver := SettleLoops.InvalidateControls(table);
      f := f.(controlGeneration := f.controlGeneration + 1);
      seen := seen.(results := Delivered(seen.results, deliver));
    }

    method FailAll()
      requires table.Valid()
      modifies this, table, Nodes(table.order)
      ensures table.Valid() && Nodes(table.order) <= old(Nodes(table.order))
      ensures Abs() == SessionSteps.FailAll(old(Abs()))
    {
      hide Table.ListOk, Table.ReplayOk, Flagged, Table.Counted, Mapped, Table.Rows, Table.Replay, Nodes, Chosen, Drop,
           DropIds, Delivered;
      var deliver := SettleLoops.FailAll(table);
      seen := seen.(results := Delivered(seen.results, deliver));
    }

    method FailSentUnknown()
      requires table.Valid()
      modifies this, table, Nodes(table.order)
      ensures table.Valid() && Nodes(table.order) <= old(Nodes(table.order))
      ensures Abs() == SessionSteps.FailSentUnknown(old(Abs()))
    {
      hide Table.ListOk, Table.ReplayOk, Flagged, Table.Counted, Mapped, Table.Rows, Table.Replay, Nodes, Chosen, Drop,
           DropIds, Delivered;
      var deliver := SettleLoops.FailSentUnknown(table);
      seen := seen.(results := Delivered(seen.results, deliver));
    }

    /** One request is answered and taken out of the table. */
    method Answer(node: Pending, ghost delivery: Delivery)
      requires table.Valid() && node in Nodes(table.order)
      modifies this, table, Nodes(table.order)
      ensures table.Valid() && Nodes(table.order) <= old(Nodes(table.order))
      ensures Abs() == Settle(old(Abs()), map[node.id := delivery])
    {
      hide Table.ListOk, Table.ReplayOk, Flagged, Table.Counted, Mapped, Table.Rows, Table.Replay, Nodes, Drop, DropIds,
           Delivered;
      ghost var deliver := map[node.id := delivery];
      assert deliver.Keys == {node.id};
      table.Remove(node);
      seen := seen.(results := Delivered(seen.results, deliver));
    }

    method PrepareReplay()
      requires table.Valid()
      modifies table, Nodes(table.order)
      ensures table.Valid() && Nodes(table.order) == old(Nodes(table.order))
      ensures Abs() == SessionSteps.PrepareReplay(old(Abs()))
    {
      hide Table.ListOk, Table.ReplayOk, Flagged, Table.Counted, Mapped, Table.Rows, Table.Replay, Nodes, Unsend;
      table.PrepareReplay();
    }

    method TrimReplay(sequence: nat)
      requires table.Valid()
      modifies table, Nodes(table.order)
      ensures table.Valid() && Nodes(table.order) == old(Nodes(table.order))
      ensures Abs() == SessionSteps.TrimReplay(old(Abs()), sequence)
    {
      hide Table.ListOk, Table.ReplayOk, Flagged, Table.Counted, Mapped, Table.Rows, Table.Replay, Nodes, Trimmed;
      table.ReplayWithin();
      table.TrimReplay(sequence);
    }

    // -------------------------------------------------------------- plain fields

    /** Nothing is left of the peer, and numbering starts again. */
    method ForgetPeer()
      requires table.Valid()
      modifies `f
      ensures table.Valid()
      ensures Abs() == old(Abs()).(pendingAck := 0, serverCookie := 0, lossy := false, connectSequence := 0,
                                   lastInbound := 0, nextOutbound := 1, sequenceExhausted := false, nextTid := 1,
                                   tidExhausted := false)
    {
      hide Table.ListOk, Table.ReplayOk, Flagged, Table.Counted, Mapped, Table.Rows, Table.Replay, Nodes;
      f := f.(pendingAck := 0, serverCookie := 0, lossy := false, connectSequence := 0, lastInbound := 0,
              nextOutbound := 1, sequenceExhausted := false, nextTid := 1, tidExhausted := false);
    }

    /** Numbering starts again. */
    method Renumber()
      requires table.Valid()
      modifies `f
      ensures table.Valid()
      ensures Abs() == old(Abs()).(nextOutbound := 1, sequenceExhausted := false, nextTid := 1,
                                   tidExhausted := false)
    {
      hide Table.ListOk, Table.ReplayOk, Flagged, Table.Counted, Mapped, Table.Rows, Table.Replay, Nodes;
      f := f.(nextOutbound := 1, sequenceExhausted := false, nextTid := 1, tidExhausted := false);
    }

    /** The session is over for good. */
    method Die(next: nat)
      requires table.Valid()
      modifies `f
      ensures table.Valid()
      ensures Abs() == old(Abs()).(pendingAck := 0, generation := next, terminal := true, linked := false,
                                   writeBusy := false, controlQueue := [], connectPending := false)
    {
      hide Table.ListOk, Table.ReplayOk, Flagged, Table.Counted, Mapped, Table.Rows, Table.Replay, Nodes;
      f := f.(pendingAck := 0, generation := next, terminal := true, linked := false, writeBusy := false,
              controlQueue := [], connectPending := false);
    }

    /** The transport is given up. */
    method Unlink()
      requires table.Valid()
      modifies `f
      ensures table.Valid()
      ensures Abs() == old(Abs()).(pendingAck := 0, linked := false, writeBusy := false, controlQueue := [])
    {
      hide Table.ListOk, Table.ReplayOk, Flagged, Table.Counted, Mapped, Table.Rows, Table.Replay, Nodes;
      f := f.(pendingAck := 0, linked := false, writeBusy := false, controlQueue := []);
    }

    /** A new transport is asked for. */
    method AskTransport(attempts: nat, next: nat)
      requires table.Valid()
      modifies `f
      ensures table.Valid()
      ensures Abs() == old(Abs()).(reconnectAttempts := attempts, connectPending := true, generation := next)
    {
      hide Table.ListOk, Table.ReplayOk, Flagged, Table.Counted, Mapped, Table.Rows, Table.Replay, Nodes;
      f := f.(reconnectAttempts := attempts, connectPending := true, generation := next);
    }

    /** The owner's phase. */
    method SetPhase(phase: Phase)
      requires table.Valid()
      modifies `f
      ensures table.Valid() && Abs() == old(Abs()).(phase := phase)
    {
      hide Table.ListOk, Table.ReplayOk, Flagged, Table.Counted, Mapped, Table.Rows, Table.Replay, Nodes;
      f := f.(phase := phase);
    }

    /** The control frames that wait. */
    method SetQueue(queue: seq<ControlFrame>)
      requires table.Valid()
      modifies `f
      ensures table.Valid() && Abs() == old(Abs()).(controlQueue := queue)
    {
      hide Table.ListOk, Table.ReplayOk, Flagged, Table.Counted, Mapped, Table.Rows, Table.Replay, Nodes;
      f := f.(controlQueue := queue);
    }

    /** A control frame goes to the writer. */
    method TakeFrame(queue: seq<ControlFrame>)
      requires table.Valid()
      modifies `f
      ensures table.Valid() && Abs() == old(Abs()).(controlQueue := queue, writeBusy := true)
    {
      hide Table.ListOk, Table.ReplayOk, Flagged, Table.Counted, Mapped, Table.Rows, Table.Replay, Nodes;
      f := f.(controlQueue := queue, writeBusy := true);
    }

    /** The acknowledgment that waits. */
    method SetAck(sequence: nat)
      requires table.Valid()
      modifies `f
      ensures table.Valid() && Abs() == old(Abs()).(pendingAck := sequence)
    {
      hide Table.ListOk, Table.ReplayOk, Flagged, Table.Counted, Mapped, Table.Rows, Table.Replay, Nodes;
      f := f.(pendingAck := sequence);
    }

    /** The transaction ids used up. */
    method SetTids(next: nat, exhausted: bool)
      requires table.Valid()
      modifies `f
      ensures table.Valid() && Abs() == old(Abs()).(nextTid := next, tidExhausted := exhausted)
    {
      hide Table.ListOk, Table.ReplayOk, Flagged, Table.Counted, Mapped, Table.Rows, Table.Replay, Nodes;
      f := f.(nextTid := next, tidExhausted := exhausted);
    }

    /** The sequences used up. */
    method SetSequences(next: nat, exhausted: bool)
      requires table.Valid()
      modifies `f
      ensures table.Valid() && Abs() == old(Abs()).(sequenceExhausted := exhausted, nextOutbound := next)
    {
      hide Table.ListOk, Table.ReplayOk, Flagged, Table.Counted, Mapped, Table.Rows, Table.Replay, Nodes;
      f := f.(sequenceExhausted := exhausted, nextOutbound := next);
    }

    /** A renewal is due. */
    method SetRenewal(due: bool)
      requires table.Valid()
      modifies `f
      ensures table.Valid() && Abs() == old(Abs()).(renewalPending := due)
    {
      hide Table.ListOk, Table.ReplayOk, Flagged, Table.Counted, Mapped, Table.Rows, Table.Replay, Nodes;
      f := f.(renewalPending := due);
    }

    /** The last message taken in. */
    method SetInbound(sequence: nat)
      requires table.Valid()
      modifies `f
      ensures table.Valid() && Abs() == old(Abs()).(lastInbound := sequence)
    {
      hide Table.ListOk, Table.ReplayOk, Flagged, Table.Counted, Mapped, Table.Rows, Table.Replay, Nodes;
      f := f.(lastInbound := sequence);
    }

    /** Nothing is left of the peer. */
    method ClearPeer()
      requires table.Valid()
      modifies `f
      ensures table.Valid()
      ensures Abs() == old(Abs()).(serverCookie := 0, lossy := false, connectSequence := 0, lastInbound := 0)
    {
      hide Table.ListOk, Table.ReplayOk, Flagged, Table.Counted, Mapped, Table.Rows, Table.Replay, Nodes;
      f := f.(serverCookie := 0, lossy := false, connectSequence := 0, lastInbound := 0);
    }

    /** One more step of a handshake. */
    method CountTransition(transitions: nat)
      requires table.Valid()
      modifies `f
      ensures table.Valid() && Abs() == old(Abs()).(transitions := transitions)
    {
      hide Table.ListOk, Table.ReplayOk, Flagged, Table.Counted, Mapped, Table.Rows, Table.Replay, Nodes;
      f := f.(transitions := transitions);
    }

    /** The peer has said who it is. */
    method Identify(cookie: nat, isLossy: bool)
      requires table.Valid()
      modifies `f
      ensures table.Valid() && Abs() == old(Abs()).(serverCookie := cookie, lossy := isLossy, reconnectAttempts := 0)
    {
      hide Table.ListOk, Table.ReplayOk, Flagged, Table.Counted, Mapped, Table.Rows, Table.Replay, Nodes;
      f := f.(serverCookie := cookie, lossy := isLossy, reconnectAttempts := 0);
    }

    /** The handshake is over. */
    method Resume()
      requires table.Valid()
      modifies `f
      ensures table.Valid() && Abs() == old(Abs()).(reconnectAttempts := 0, phase := Ready)
    {
      hide Table.ListOk, Table.ReplayOk, Flagged, Table.Counted, Mapped, Table.Rows, Table.Replay, Nodes;
      f := f.(reconnectAttempts := 0, phase := Ready);
    }

    /** The attempt at this connection. */
    method SetConnectSequence(sequence: nat)
      requires table.Valid()
      modifies `f
      ensures table.Valid() && Abs() == old(Abs()).(connectSequence := sequence)
    {
      hide Table.ListOk, Table.ReplayOk, Flagged, Table.Counted, Mapped, Table.Rows, Table.Replay, Nodes;
      f := f.(connectSequence := sequence);
    }

    /** The peer asks to wait. */
    method AwaitPeer(transitions: nat)
      requires table.Valid()
      modifies `f
      ensures table.Valid() && Abs() == old(Abs()).(transitions := transitions, phase := Waiting)
    {
      hide Table.ListOk, Table.ReplayOk, Flagged, Table.Counted, Mapped, Table.Rows, Table.Replay, Nodes;
      f := f.(transitions := transitions, phase := Waiting);
    }

    /** No transport is asked for any more. */
    method StopConnecting()
      requires table.Valid()
      modifies `f
      ensures table.Valid() && Abs() == old(Abs()).(connectPending := false)
    {
      hide Table.ListOk, Table.ReplayOk, Flagged, Table.Counted, Mapped, Table.Rows, Table.Replay, Nodes;
      f := f.(connectPending := false);
    }

    /** A transport was found. */
    method Reopen()
      requires table.Valid()
      modifies `f
      ensures table.Valid() && Abs() == old(Abs()).(terminal := false, transitions := 0)
    {
      hide Table.ListOk, Table.ReplayOk, Flagged, Table.Counted, Mapped, Table.Rows, Table.Replay, Nodes;
      f := f.(terminal := false, transitions := 0);
    }

    /** There has been a transport. */
    method SetConnected()
      requires table.Valid()
      modifies `f
      ensures table.Valid() && Abs() == old(Abs()).(connectedOnce := true)
    {
      hide Table.ListOk, Table.ReplayOk, Flagged, Table.Counted, Mapped, Table.Rows, Table.Replay, Nodes;
      f := f.(connectedOnce := true);
    }

    /** The writer is done. */
    method SetIdle()
      requires table.Valid()
      modifies `f
      ensures table.Valid() && Abs() == old(Abs()).(writeBusy := false)
    {
      hide Table.ListOk, Table.ReplayOk, Flagged, Table.Counted, Mapped, Table.Rows, Table.Replay, Nodes;
      f := f.(writeBusy := false);
    }

    // -------------------------------------------------------------- faults

    method ResetForNewIdentity()
      requires table.Valid()
      modifies this, table, Nodes(table.order)
      ensures table.Valid() && Nodes(table.order) <= old(Nodes(table.order))
      ensures Abs() == SessionSteps.ResetForNewIdentity(old(Abs()))
    {
      hide Abs, Table.Valid, Nodes, SessionSteps.FailAll;
      ForgetPeer();
      FailAll();
    }

    method FailTerminal()
      requires table.Valid()
      modifies this, table, Nodes(table.order)
      ensures table.Valid() && Nodes(table.order) <= old(Nodes(table.order))
      ensures Abs() == SessionSteps.FailTerminal(old(Abs()))
    {
      hide Abs, Table.Valid, Nodes, SessionSteps.FailAll, SessionSteps.InvalidateControls;
      Mirrors();
      ghost var s := Abs();
      InvalidateControls();
      InvalidateFrame(s);
      Mirrors();
      Die(f.generation + 1);
      FailAll();
      SetPhase(Disconnected);
    }

    method BeginReconnect()
      requires table.Valid()
      modifies this, table, Nodes(table.order)
      ensures table.Valid() && Nodes(table.order) <= old(Nodes(table.order))
      ensures Abs() == SessionSteps.BeginReconnect(old(Abs()))
    {
      hide Abs, Table.Valid, Nodes, SessionSteps.FailTerminal;
      Mirrors();
      if config.maxReconnects > 0 && f.reconnectAttempts >= config.maxReconnects {
        FailTerminal();
      } else {
        AskTransport(f.reconnectAttempts + 1, f.generation + 1);
      }
    }

    /** What a fault does to the requests, by connection kind and policy. */
    method SettleFault()
      requires table.Valid()
      modifies this, table, Nodes(table.order)
      ensures table.Valid() && Nodes(table.order) <= old(Nodes(table.order))
      ensures Abs() == SessionSteps.SettleFault(old(Abs()))
    {
      hide Abs, Table.Valid, Nodes, SessionSteps.FailAll, SessionSteps.FailSentUnknown,
          SessionSteps.ResetForNewIdentity,
           SessionSteps.PrepareReplay;
      Mirrors();
      if f.lossy {
        FailSentUnknown();
        ResetForNewIdentity();
      } else if config.policy == FailPending {
        FailAll();
      } else if f.serverCookie == 0 {
        FailSentUnknown();
      } else {
        PrepareReplay();
      }
    }

    method HandleFault()
      requires table.Valid()
      modifies this, table, Nodes(table.order)
      ensures table.Valid() && Nodes(table.order) <= old(Nodes(table.order))
      ensures Abs() == SessionSteps.HandleFault(old(Abs()))
    {
      hide Abs, Table.Valid, Nodes, SessionSteps.InvalidateControls, SessionSteps.SettleFault,
           SessionSteps.BeginReconnect;
      Mirrors();
      if f.terminal || f.phase == Stopped || (f.phase == Disconnected && f.connectPending) { return; }
      InvalidateControls();
      Unlink();
      SettleFault();
      SetPhase(Disconnected);
      BeginReconnect();
    }

    // -------------------------------------------------------------- control frames out

    method QueueControl(frame: ControlFrame)
      requires table.Valid()
      modifies this, table, Nodes(table.order)
      ensures table.Valid() && Nodes(table.order) <= old(Nodes(table.order))
      ensures Abs() == SessionSteps.QueueControl(old(Abs()), frame)
    {
      hide Abs, Table.Valid, Nodes, SessionSteps.HandleFault;
      Mirrors();
      if !config.fits(frame) {
        HandleFault();
        return;
      }
      var queued := |f.controlQueue|;
      if f.pendingAck != 0 { queued := queued + 1; }
      if queued >= config.maxQueued {
        HandleFault();
      } else {
        SetQueue(f.controlQueue + [frame]);
      }
    }

    method FlushAcknowledgment()
      requires table.Valid()
      modifies this, table, Nodes(table.order)
      ensures table.Valid() && Nodes(table.order) <= old(Nodes(table.order))
      ensures Abs() == SessionSteps.FlushAcknowledgment(old(Abs()))
    {
      hide Abs, Table.Valid, Nodes, SessionSteps.QueueControl;
      Mirrors();
      var sequence := f.pendingAck;
      if sequence != 0 {
        SetAck(0);
        QueueControl(AckFrame(sequence));
      }
    }

    method QueueAcknowledgment(sequence: nat)
      requires table.Valid()
      modifies this, table, Nodes(table.order)
      ensures table.Valid() && Nodes(table.order) <= old(Nodes(table.order))
      ensures Abs() == SessionSteps.QueueAcknowledgment(old(Abs()), sequence)
    {
      hide Abs, Table.Valid, Nodes, SessionSteps.QueueControl, SessionSteps.HandleFault,
          SessionSteps.QueueAcknowledgment;
      Mirrors();
      AckCases(Abs(), sequence);
      if f.phase != Ready {
        QueueControl(AckFrame(sequence));
        return;
      }
      if f.pendingAck == 0 && |f.controlQueue| >= config.maxQueued {
        HandleFault();
        return;
      }
      SetAck(sequence);
    }

    method SendReconnect()
      requires table.Valid()
      modifies this, table, Nodes(table.order)
      ensures table.Valid() && Nodes(table.order) <= old(Nodes(table.order))
      ensures Abs() == SessionSteps.SendReconnect(old(Abs()))
    {
      hide Abs, Table.Valid, Nodes, SessionSteps.QueueControl;
      Mirrors();
      var attempt, last := f.connectSequence, f.lastInbound;
      SetQueue([]);
      QueueControl(ReconnectFrame(attempt, last));
    }

    // -------------------------------------------------------------- admission

    /** Admission is decided by the counters and the maps. */
    method Refuses(command: Command, cancelled: bool) returns (refused: bool)
      requires table.Valid()
      ensures table.Valid() && Abs() == old(Abs()) && refused == Refused(Abs(), command, cancelled)
    {
      hide Table.Valid, Table.Rows, Table.Replay, Nodes, SumOf, Tids;
      table.Known();
      if command.generation != 0 && command.generation != f.controlGeneration { return true; }
      if cancelled || f.terminal { return true; }
      if command.control && !command.validControl { return true; }
      if !command.wellFormed { return true; }
      if command.control {
        if table.controlCount >= MAX_CONTROL_MESSAGES || table.controlBytes > MAX_CONTROL_RETAINED_BYTES
           || command.bytes > MAX_CONTROL_RETAINED_BYTES - table.controlBytes {
          return true;
        }
      } else if |table.pending| - table.controlCount >= config.maxQueued || table.retainedBytes > config.maxRetained
                || command.bytes > config.maxRetained - table.retainedBytes {
        return true;
      }
      return command.tid != 0 && command.tid in table.byTid;
    }

    /** Takes the next transaction id that is not in use. */
    method TakeTid() returns (tid: Option<nat>)
      requires table.Valid() && f.nextTid <= MAX_UINT64
      modifies `f
      ensures table.Valid()
      ensures var taken := SessionSteps.TakeTid(Tids(old(Abs()).pending), old(f.nextTid), old(f.tidExhausted));
        tid == taken.tid && Abs() == old(Abs()).(nextTid := taken.next, tidExhausted := taken.exhausted)
    {
      hide Table.ListOk, Table.ReplayOk, Flagged, Table.Counted, Mapped, Table.Replay, RowsOf, Tids,
          SessionSteps.TakeTid;
      table.Known();
      var taken := SearchTid(table.byTid.Keys, f.nextTid, f.tidExhausted);
      SetTids(taken.next, taken.exhausted);
      return taken.tid;
    }

    /** A command is noted with the results it has so far. */
    method Note(command: Command, ghost deliveries: seq<Delivery>)
      requires table.Valid()
      modifies `seen
      ensures table.Valid() && Abs() == Record(old(Abs()), command, deliveries)
    {
      hide Table.ListOk, Table.ReplayOk, Flagged, Table.Counted, Mapped, Table.Rows, Table.Replay, Nodes;
      seen := seen.(commands := seen.commands[command.id := command],
                    results := seen.results[command.id := deliveries]);
    }

    method Make(command: Command, tid: nat) returns (node: Pending)
      requires table.Valid()
      ensures table.Valid() && Abs() == old(Abs()) && table.byRequest == old(table.byRequest)
              && table.byTid == old(table.byTid)
      ensures fresh(node) && node.Row() == Row(command, tid) && !node.inReplay
    {
      hide Table.ListOk, Table.ReplayOk, Flagged, Table.Counted, Mapped;
      node := new Pending(Row(command, tid));
    }

    /** A command enters the table. */
    method Enter(command: Command, tid: nat) returns (ghost entry: Pending)
      requires table.Valid() && command.id !in table.byRequest && tid !in table.byTid
      modifies `seen, table, Nodes(table.order)
      ensures table.Valid() && fresh(entry) && Nodes(table.order) == old(Nodes(table.order)) + {entry}
      ensures Abs() == Admit(Record(old(Abs()), command, []), command, tid)
    {
      hide Table.ListOk, Table.ReplayOk, Flagged, Table.Counted, Mapped, Table.Rows, Table.Replay, Nodes;
      var node := Make(command, tid);
      entry := node;
      table.Add(node);
      seen := seen.(commands := seen.commands[command.id := command], results := seen.results[command.id := []],
                    admissions := seen.admissions[command.id := seen.admitted], admitted := seen.admitted + 1);
    }

    /** A command that was not refused and has no transaction yet. */
    method Number(command: Command)
      requires table.Valid() && f.nextTid <= MAX_UINT64 && command.id !in table.byRequest
      modifies this, table, Nodes(table.order)
      ensures table.Valid() && forall n :: n in Nodes(table.order) ==> n in old(Nodes(table.order)) || fresh(n)
      ensures old(Abs()).nextTid <= MAX_UINT64 && Abs() == AfterNumbering(old(Abs()), command)
    {
      hide Abs, Table.Valid, Nodes, SessionSteps.TakeTid, SessionSteps.FailTerminal, Admit, Record, Tids;
      Mirrors();
      table.Known();
      var tid := TakeTid();
      Mirrors();
      table.Known();
      match tid
      case None =>
        FailTerminal();
        Note(command, [Delivery(Failed(false), AtSubmit)]);
      case Some(free) =>
        ghost var entry := Enter(command, free);
    }

    method Submit(command: Command, cancelled: bool)
      requires table.Valid() && f.nextTid <= MAX_UINT64 && command.id !in Ids(table.Rows())
      modifies this, table, Nodes(table.order)
      ensures table.Valid() && forall n :: n in Nodes(table.order) ==> n in old(Nodes(table.order)) || fresh(n)
      ensures old(Abs()).nextTid <= MAX_UINT64 && Abs() == SessionSteps.Submit(old(Abs()), command, cancelled)
    {
      hide Abs, Table.Valid, Nodes, Table.Rows, SessionSteps.Submit, Refused, Admit, Record, Ids, Tids, AfterNumbering;
      Mirrors();
      table.Known();
      SubmitCases(Abs(), command, cancelled);
      var refused := Refuses(command, cancelled);
      if refused {
        Note(command, [Delivery(Failed(false), AtSubmit)]);
      } else if command.tid != 0 {
        ghost var entry := Enter(command, command.tid);
      } else {
        Number(command);
      }
    }

    method Cancel(id: RequestId)
      requires table.Valid()
      modifies this, table, Nodes(table.order)
      ensures table.Valid() && Nodes(table.order) <= old(Nodes(table.order))
      ensures Abs() == SessionSteps.Cancel(old(Abs()), id)
    {
      hide Abs, Table.Valid, Nodes, Table.Rows, Settle, FindId, Ids;
      Mirrors();
      table.Known();
      CancelCases(Abs(), id);
      if id !in table.byRequest { return; }
      table.NodeOf(id);
      var node := table.byRequest[id];
      Answer(node, Delivery(Failed(node.mayHaveExecuted), AtCancel));
    }

    // -------------------------------------------------------------- dispatch

    /** The request is marked as written in the table. */
    method MarkWritten(node: Pending, sequence: nat, ghost index: nat)
      requires table.Valid() && index < |table.order| && table.order[index] == node && !node.sent
      modifies table, Nodes(table.order)
      ensures table.Valid() && Nodes(table.order) == old(Nodes(table.order))
      ensures var s := old(Abs());
        && index < |s.pending|
        && var row := s.pending[index];
        Abs() == s.(pending := s.pending[index := row.(sequence := sequence, sent := true, mayHaveExecuted := true)],
                    replay := if row.id in s.replay then s.replay else s.replay + [row.id])
    {
      hide Table.ListOk, Table.ReplayOk, Flagged, Table.Counted, Mapped, Table.Rows, Table.Replay, Nodes;
      table.InOrder(index);
      table.ReplayWithin();
      ghost var k := table.MarkWritten(node, sequence);
      table.OnePlace(index, k);
    }

    /** A write is noted. */
    method NoteWrite(ghost row: Entry, sequence: nat)
      requires table.Valid()
      modifies `f, `seen
      ensures table.Valid()
      ensures var s := old(Abs());
        Abs() == s.(pendingAck := 0, writeBusy := true, dispatched := s.dispatched + {row.id},
                    written := s.written + [Write(row.id, sequence, row.sequence != 0, row.control)])
    {
      hide Table.ListOk, Table.ReplayOk, Flagged, Table.Counted, Mapped, Table.Rows, Table.Replay, Nodes;
      f := f.(pendingAck := 0, writeBusy := true);
      seen := seen.(dispatched := seen.dispatched + {row.id},
                    written := seen.written + [Write(row.id, sequence, row.sequence != 0, row.control)]);
    }

    /** The request goes to the writer. */
    method HandToWriter(node: Pending, sequence: nat, ghost index: nat)
      requires table.Valid() && index < |table.order| && table.order[index] == node && !node.sent
      modifies this, table, Nodes(table.order)
      ensures table.Valid() && Nodes(table.order) == old(Nodes(table.order))
      ensures index < |old(Abs()).pending| && Abs() == SessionSteps.HandToWriter(old(Abs()), index, sequence)
    {
      hide Abs, Table.Valid, Nodes;
      Mirrors();
      table.InOrder(index);
      ghost var row := Abs().pending[index];
      MarkWritten(node, sequence, index);
      NoteWrite(row, sequence);
    }

    method WriteRow(node: Pending, ghost index: nat)
      requires table.Valid() && index < |table.order| && table.order[index] == node && !node.sent
      modifies this, table, Nodes(table.order)
      ensures table.Valid() && Nodes(table.order) <= old(Nodes(table.order))
      ensures index < |old(Abs()).pending| && Abs() == SessionSteps.WriteRow(old(Abs()), index)
    {
      hide Abs, Table.Valid, Nodes, SessionSteps.HandToWriter, SessionSteps.FailTerminal;
      Mirrors();
      table.InOrder(index);
      if node.sequence != 0 {
        HandToWriter(node, node.sequence, index);
      } else if f.sequenceExhausted {
        FailTerminal();
      } else {
        var sequence := if f.nextOutbound == 0 then 1 else f.nextOutbound;
        SetSequences(if sequence == MAX_UINT64 then 0 else sequence + 1, sequence == MAX_UINT64);
        HandToWriter(node, sequence, index);
      }
    }

    method DispatchRow(node: Pending, ghost index: nat, cancelled: bool)
      requires table.Valid() && index < |table.order| && table.order[index] == node && !node.sent
      modifies this, table, Nodes(table.order)
      ensures table.Valid() && Nodes(table.order) <= old(Nodes(table.order))
      ensures index < |old(Abs()).pending| && Abs() == SessionSteps.DispatchRow(old(Abs()), index, cancelled)
    {
      hide Abs, Table.Valid, Nodes, SessionSteps.Cancel, SessionSteps.WriteRow, Settle, SumOf;
      Mirrors();
      table.InOrder(index);
      table.Known();
      if node.generation != 0 && node.generation != f.controlGeneration {
        Answer(node, Delivery(Failed(false), AtInvalidate));
      } else if !node.control && table.inFlight >= config.maxInFlight {
      } else if cancelled && node.control {
        Cancel(node.id);
      } else if cancelled {
        Answer(node, Delivery(Failed(false), AtRedispatch));
      } else {
        WriteRow(node, index);
      }
    }

    method FindNext() returns (node: Pending?)
      requires table.Valid()
      ensures table.Valid() && Abs() == old(Abs()) && node == At(table.order, SessionSteps.NextWrite(table.Rows()))
    {
      hide Table.ListOk, Table.ReplayOk, Flagged, Table.Counted, Mapped, Table.Replay, RowsOf, SessionSteps.NextWrite;
      node := table.NextWrite();
    }

    method DispatchReady(cancelled: bool)
      requires table.Valid()
      modifies this, table, Nodes(table.order)
      ensures table.Valid() && Nodes(table.order) <= old(Nodes(table.order))
      ensures Abs() == SessionSteps.DispatchReady(old(Abs()), cancelled)
    {
      hide Abs, Table.Valid, Nodes, SessionSteps.HandleFault, SessionSteps.DispatchRow, SessionSteps.NextWrite, SumOf;
      Mirrors();
      var node := FindNext();
      Mirrors();
      table.Known();
      ghost var index := SessionSteps.NextWrite(table.Rows());
      if index < |table.Rows()| { table.InOrder(index); }
      if f.renewalPending && (node == null || !node.control) {
        if table.inFlight == 0 {
          SetRenewal(false);
          HandleFault();
        }
      } else if node != null {
        DispatchRow(node, index, cancelled);
      }
    }

    method DispatchNext(cancelled: bool)
      requires table.Valid()
      modifies this, table, Nodes(table.order)
      ensures table.Valid() && Nodes(table.order) <= old(Nodes(table.order))
      ensures Abs() == SessionSteps.DispatchNext(old(Abs()), cancelled)
    {
      hide Abs, Table.Valid, Nodes, SessionSteps.DispatchReady;
      Mirrors();
      if |f.controlQueue| > 0 {
        TakeFrame(f.controlQueue[1..]);
      } else if f.phase == Ready {
        DispatchReady(cancelled);
      }
    }

    method Dispatch(cancelled: bool)
      requires table.Valid()
      modifies this, table, Nodes(table.order)
      ensures table.Valid() && Nodes(table.order) <= old(Nodes(table.order))
      ensures Abs() == SessionSteps.Dispatch(old(Abs()), cancelled)
    {
      hide Abs, Table.Valid, Nodes, SessionSteps.FlushAcknowledgment, SessionSteps.DispatchNext, SumOf;
      Mirrors();
      table.Known();
      if f.writeBusy || !f.linked || f.phase == Disconnected || f.phase == Waiting || f.phase == Stopped { return; }
      if f.renewalPending && f.pendingAck != 0 && table.inFlight == 0 { FlushAcknowledgment(); }
      DispatchNext(cancelled);
    }

    // -------------------------------------------------------------- frames in

    method AcceptMessage(message: Inbound, queueFull: bool)
      requires table.Valid()
      modifies this, table, Nodes(table.order)
      ensures table.Valid() && Nodes(table.order) <= old(Nodes(table.order))
      ensures Abs() == SessionSteps.AcceptMessage(old(Abs()), message, queueFull)
    {
      hide Abs, Table.Valid, Nodes, Table.Rows, SessionSteps.QueueAcknowledgment, SessionSteps.FailTerminal,
           SessionSteps.TrimReplay, Settle, FindTid, Tids;
      Mirrors();
      var generation := f.controlGeneration;
      SetInbound(message.sequence);
      TrimReplay(message.acknowledged);
      Mirrors();
      table.Known();
      ghost var trimmed := Abs();
      TidCases(trimmed, message.tid);
      if message.tid in table.byTid {
        table.NodeOfTid(message.tid);
        var node := table.byTid[message.tid];
        if !node.control {
          Answer(node, Delivery(Replied, AtReply));
          QueueAcknowledgment(message.sequence);
          return;
        }
      }
      QueueAcknowledgment(message.sequence);
      Mirrors();
      if f.controlGeneration == generation && queueFull { FailTerminal(); }
    }

    method HandleMessage(message: Inbound, queueFull: bool)
      requires table.Valid()
      modifies this, table, Nodes(table.order)
      ensures table.Valid() && Nodes(table.order) <= old(Nodes(table.order))
      ensures Abs() == SessionSteps.HandleMessage(old(Abs()), message, queueFull)
    {
      hide Abs, Table.Valid, Nodes, SessionSteps.HandleFault, SessionSteps.AcceptMessage;
      Mirrors();
      if f.phase != Ready || BadAck(message.acknowledged) {
        HandleFault();
      } else if message.sequence > f.lastInbound {
        AcceptMessage(message, queueFull);
      }
    }

    predicate BadAck(sequence: nat)
      reads `f
    {
      !f.sequenceExhausted && sequence >= f.nextOutbound && sequence != 0
    }

    /** The requests of a reset session: all failed, or all to be replayed. */
    method ResetRequests(full: bool)
      requires table.Valid()
      modifies this, table, Nodes(table.order)
      ensures table.Valid() && Nodes(table.order) <= old(Nodes(table.order))
      ensures Abs() == var s := old(Abs());
        if full then SessionSteps.FailAll(s.(nextOutbound := 1, sequenceExhausted := false, nextTid := 1,
                                             tidExhausted := false))
        else SessionSteps.PrepareReplay(s)
    {
      hide Abs, Table.Valid, Nodes, SessionSteps.FailAll, SessionSteps.PrepareReplay;
      if full {
        Renumber();
        FailAll();
      } else {
        PrepareReplay();
      }
    }

    method HandleReset(full: bool, cookieOk: bool)
      requires table.Valid()
      modifies this, table, Nodes(table.order)
      ensures table.Valid() && Nodes(table.order) <= old(Nodes(table.order))
      ensures Abs() == SessionSteps.HandleReset(old(Abs()), full, cookieOk)
    {
      hide Abs, Table.Valid, Nodes, SessionSteps.InvalidateControls, SessionSteps.FailTerminal, SessionSteps.FailAll,
           SessionSteps.PrepareReplay, SessionSteps.QueueControl;
      SetAck(0);
      InvalidateControls();
      ClearPeer();
      if full && !cookieOk {
        FailTerminal();
      } else {
        ResetRequests(full);
        SetPhase(Connecting);
        QueueControl(ClientIdentFrame);
      }
    }

    method HandleServerIdent(ident: Control)
      requires table.Valid() && ident.ServerIdent?
      modifies this, table, Nodes(table.order)
      ensures table.Valid() && Nodes(table.order) <= old(Nodes(table.order))
      ensures Abs() == SessionSteps.HandleServerIdent(old(Abs()), ident)
    {
      hide Abs, Table.Valid, Nodes, SessionSteps.HandleFault, SessionSteps.FailTerminal, SessionSteps.FailSentUnknown;
      Mirrors();
      if f.phase != Connecting {
        HandleFault();
        return;
      }
      CountTransition(f.transitions + 1);
      Mirrors();
      if f.transitions > config.maxTransitions {
        HandleFault();
      } else if !ident.featuresOk {
        FailTerminal();
      } else if !ident.endpointOk {
        HandleFault();
      } else {
        Identify(ident.cookie, ident.isLossy);
        FailSentUnknown();
        SetPhase(Ready);
      }
    }

    method HandleReconnectOk(sequence: nat)
      requires table.Valid()
      modifies this, table, Nodes(table.order)
      ensures table.Valid() && Nodes(table.order) <= old(Nodes(table.order))
      ensures Abs() == SessionSteps.HandleReconnectOk(old(Abs()), sequence)
    {
      hide Abs, Table.Valid, Nodes, SessionSteps.HandleFault, SessionSteps.TrimReplay, SessionSteps.PrepareReplay;
      Mirrors();
      if BadAck(sequence) {
        HandleFault();
        return;
      }
      TrimReplay(sequence);
      PrepareReplay();
      Resume();
    }

    /** The controls that are only accepted while reconnecting. */
    method HandleTransition(control: Control)
      requires control.SessionReset? || control.SessionRetry? || control.SessionRetryGlobal? || control.ReconnectOk?
      requires table.Valid()
      modifies this, table, Nodes(table.order)
      ensures table.Valid() && Nodes(table.order) <= old(Nodes(table.order))
      ensures Abs() == SessionSteps.HandleTransition(old(Abs()), control)
    {
      hide Abs, Table.Valid, Nodes, SessionSteps.HandleFault, SessionSteps.FailTerminal, SessionSteps.HandleReset,
           SessionSteps.SendReconnect, SessionSteps.HandleReconnectOk;
      Mirrors();
      if f.phase != Reconnecting {
        HandleFault();
        return;
      }
      CountTransition(f.transitions + 1);
      Mirrors();
      if f.transitions > config.maxTransitions {
        HandleFault();
        return;
      }
      match control
      case SessionReset(full, cookieOk) => HandleReset(full, cookieOk);
      case SessionRetry(sequence) =>
        if sequence >= MAX_UINT64 {
          FailTerminal();
        } else {
          SetConnectSequence(sequence + 1);
          SendReconnect();
        }
      case SessionRetryGlobal(globalOk) => if globalOk { SendReconnect(); } else { FailTerminal(); }
      case ReconnectOk(sequence) => HandleReconnectOk(sequence);
    }

    method HandleControl(control: Control)
      requires table.Valid()
      modifies this, table, Nodes(table.order)
      ensures table.Valid() && Nodes(table.order) <= old(Nodes(table.order))
      ensures Abs() == SessionSteps.HandleControl(old(Abs()), control)
    {
      hide Abs, Table.Valid, Nodes, SessionSteps.HandleFault, SessionSteps.FailTerminal, SessionSteps.TrimReplay,
           SessionSteps.QueueControl, SessionSteps.HandleServerIdent, SessionSteps.HandleTransition;
      Mirrors();
      match control
      case Ack(sequence) => if f.phase != Ready || BadAck(sequence) { HandleFault(); } else { TrimReplay(sequence); }
      case Keepalive => if f.phase != Ready { HandleFault(); } else { QueueControl(KeepaliveAckFrame); }
      case KeepaliveAck => if f.phase != Ready { HandleFault(); }
      case Wait =>
        if f.phase == Connecting || f.phase == Reconnecting { AwaitPeer(f.transitions + 1); }
        HandleFault();
      case ServerIdent(_, _, _, _) => HandleServerIdent(control);
      case MissingFeatures => FailTerminal();
      case Unexpected => HandleFault();
      case _ => HandleTransition(control);
    }

    // -------------------------------------------------------------- transports

    /** A new transport carries nothing yet. */
    method StartTransport(phase: Phase)
      requires table.Valid()
      modifies `f, `seen
      ensures table.Valid() && Abs() == SessionSteps.StartTransport(old(Abs()), phase)
    {
      hide Table.ListOk, Table.ReplayOk, Flagged, Table.Counted, Mapped, Table.Rows, Table.Replay, Nodes;
      f := f.(linked := true, generation := f.generation + 1, phase := phase);
      seen := seen.(written := []);
    }

    method OpenTransport(cookieOk: bool)
      requires table.Valid()
      modifies this, table, Nodes(table.order)
      ensures table.Valid() && Nodes(table.order) <= old(Nodes(table.order))
      ensures Abs() == SessionSteps.OpenTransport(old(Abs()), cookieOk)
    {
      hide Abs, Table.Valid, Nodes, SessionSteps.FailTerminal, SessionSteps.SendReconnect, SessionSteps.StartTransport,
           SessionSteps.QueueControl;
      Mirrors();
      if f.serverCookie != 0 {
        if f.connectSequence >= MAX_UINT64 {
          FailTerminal();
        } else {
          SetConnectSequence(f.connectSequence + 1);
          StartTransport(Reconnecting);
          SendReconnect();
        }
      } else if !cookieOk {
        FailTerminal();
      } else {
        SetConnectSequence(0);
        StartTransport(Connecting);
        QueueControl(ClientIdentFrame);
      }
    }

    method HandleConnected(generation: nat, connection: Connection)
      requires table.Valid()
      modifies this, table, Nodes(table.order)
      ensures table.Valid() && Nodes(table.order) <= old(Nodes(table.order))
      ensures Abs() == SessionSteps.HandleConnected(old(Abs()), generation, connection)
    {
      hide Abs, Table.Valid, Nodes, SessionSteps.FailTerminal, SessionSteps.BeginReconnect, SessionSteps.OpenTransport,
           SessionSteps.ResetForNewIdentity;
      Mirrors();
      if generation != f.generation || !f.connectPending { return; }
      StopConnecting();
      if connection.NoTransport? {
        BeginReconnect();
        return;
      }
      Reopen();
      Mirrors();
      if f.connectedOnce && !connection.globalOk {
        FailTerminal();
        return;
      }
      SetConnected();
      if !connection.identityOk {
        FailTerminal();
        return;
      }
      if connection.identityChanged { ResetForNewIdentity(); }
      OpenTransport(connection.cookieOk);
    }

    method HandleWritten(generation: nat, request: Option<RequestId>, failed: bool)
      requires table.Valid()
      modifies this, table, Nodes(table.order)
      ensures table.Valid() && Nodes(table.order) <= old(Nodes(table.order))
      ensures Abs() == SessionSteps.HandleWritten(old(Abs()), generation, request, failed)
    {
      hide Abs, Table.Valid, Nodes, Table.Rows, SessionSteps.HandleFault, Settle, FindId, Ids;
      Mirrors();
      if generation != f.generation { return; }
      SetIdle();
      if failed {
        HandleFault();
        return;
      }
      if request.None? { return; }
      Mirrors();
      table.Known();
      IdCases(Abs(), request.value);
      if request.value in table.byRequest {
        table.NodeOf(request.value);
        var node := table.byRequest[request.value];
        if node.oneWay { Answer(node, Delivery(Sent, AtWritten)); }
      }
    }

    method Stop()
      requires table.Valid()
      modifies this, table, Nodes(table.order)
      ensures table.Valid() && Nodes(table.order) <= old(Nodes(table.order))
      ensures Abs() == SessionSteps.Stop(old(Abs()))
    {
      hide Abs, Table.Valid, Nodes, SessionSteps.InvalidateControls, SessionSteps.FailAll;
      InvalidateControls();
      SetPhase(Stopped);
      FailAll();
    }

    // -------------------------------------------------------------- the loop

    method ReadFrame(event: Event)
      requires event.MessageEvent? || event.ControlEvent? || event.ReadErrorEvent?
      requires table.Valid()
      modifies this, table, Nodes(table.order)
      ensures table.Valid() && Nodes(table.order) <= old(Nodes(table.order))
      ensures Abs() == SessionSteps.ReadFrame(old(Abs()), event)
    {
      hide Abs, Table.Valid, Nodes, SessionSteps.HandleMessage, SessionSteps.HandleControl, SessionSteps.FailTerminal,
           SessionSteps.HandleFault;
      Mirrors();
      if event.generation != f.generation || f.terminal { return; }
      match event
      case MessageEvent(_, message, queueFull) => HandleMessage(message, queueFull);
      case ControlEvent(_, control) => HandleControl(control);
      case ReadErrorEvent(_, budgetExceeded) => if budgetExceeded { FailTerminal(); } else { HandleFault(); }
    }

    /** The table is consistent and the invariant of all runs holds of the owner as a value. */
    ghost predicate Valid()
      reads this, table, Nodes(table.order), Nodes(table.replayOrder)
    {
      table.Valid() && Invariant(Abs())
    }

    /** What the loop starts with: the transport given, or the search for one. */
    method Begin(transport: bool)
      requires table.Valid()
      modifies this, table, Nodes(table.order)
      ensures table.Valid() && Nodes(table.order) <= old(Nodes(table.order))
      ensures Abs() == if transport then SessionSteps.StartTransport(old(Abs()), Ready)
              else SessionSteps.BeginReconnect(old(Abs()))
    {
      hide Abs, Table.Valid, Nodes, SessionSteps.StartTransport, SessionSteps.BeginReconnect;
      if transport { StartTransport(Ready); } else { BeginReconnect(); }
    }

    /** One turn of the loop. */
    method Step(event: Event)
      requires Valid() && SessionRuns.Offered(Abs(), event)
      modifies this, table, Nodes(table.order)
      ensures Valid() && forall n :: n in Nodes(table.order) ==> n in old(Nodes(table.order)) || fresh(n)
      ensures old(Abs()).nextTid <= MAX_UINT64 && Abs() == SessionSteps.Step(old(Abs()), event)
    {
      hide Abs, Table.Valid, Nodes, Table.Rows, Invariant, SessionSteps.Dispatch, SessionSteps.Submit,
           SessionSteps.Cancel, SessionSteps.Stop, SessionSteps.ReadFrame, SessionSteps.HandleWritten,
           SessionSteps.HandleFault, SessionSteps.HandleConnected, SessionSteps.FlushAcknowledgment;
      ghost var s := Abs();
      Mirrors();
      SessionRuns.StepKeeps(s, event);
      BoundedTids(s);
      if f.phase == Stopped { return; }
      match event
      case DispatchEvent(cancelled) => Dispatch(cancelled);
      case SubmitEvent(command, cancelled) =>
        NewRequest(s, event);
        Submit(command, cancelled);
      case CancelEvent(id) => Cancel(id);
      case StopEvent => Stop();
      case MessageEvent(_, _, _) => ReadFrame(event);
      case ControlEvent(_, _) => ReadFrame(event);
      case ReadErrorEvent(_, _) => ReadFrame(event);
      case WrittenEvent(generation, request, failed) => HandleWritten(generation, request, failed);
      case FaultEvent(generation) => if generation == f.generation { HandleFault(); }
      case RenewalEvent(generation) => if generation == f.generation { SetRenewal(true); }
      case ConnectedEvent(generation, connection) => HandleConnected(generation, connection);
      case AckTimerEvent => FlushAcknowledgment();
    }
  }

  /** A new owner, ready to take its first turn. */
  method NewOwner(config: Config, transport: bool, serverCookie: nat, connectSequence: nat) returns (owner: Owner)
    ensures fresh(owner) && owner.Valid() && owner.Abs() == Start(config, transport, serverCookie, connectSequence)
  {
    hide Owner.Abs, Table.Valid, Nodes, SessionSteps.StartTransport, SessionSteps.BeginReconnect, Invariant, Idle;
    owner := new Owner(config, transport, serverCookie, connectSequence);
    owner.Begin(transport);
    SessionRuns.StartKeeps(config, transport, serverCookie, connectSequence);
  }

  // ---------------------------------------------------------------- cases of the step functions

  lemma AckCases(s: State, sequence: nat)
    ensures s.phase != Ready ==> QueueAcknowledgment(s, sequence) == QueueControl(s, AckFrame(sequence))
    ensures s.phase == Ready && s.pendingAck == 0 && |s.controlQueue| >= s.config.maxQueued ==>
      QueueAcknowledgment(s, sequence) == HandleFault(s)
    ensures s.phase == Ready && (s.pendingAck != 0 || |s.controlQueue| < s.config.maxQueued) ==>
      QueueAcknowledgment(s, sequence) == s.(pendingAck := sequence)
  {
    hide QueueControl, HandleFault;
  }

  lemma InvalidateFrame(s: State)
    ensures SessionSteps.InvalidateControls(s).generation == s.generation
  {
    hide Chosen, Drop, DropIds, Delivered;
  }

  /** What the search for a transaction id does next. */
  lemma TakesOne(used: set<nat>, next: nat, exhausted: bool)
    requires next <= MAX_UINT64
    ensures exhausted ==> TakeTid(used, next, exhausted) == TakenTid(None, next, exhausted)
    ensures !exhausted ==>
      var tid := if next == 0 then 1 else next;
      var next', exhausted' := if tid == MAX_UINT64 then 0 else tid + 1, tid == MAX_UINT64;
      TakeTid(used, next, exhausted)
      == if tid !in used then TakenTid(Some(tid), next', exhausted') else TakeTid(used, next', exhausted')
  {
  }

  /** Skips ids still in use, and never wraps. */
  method SearchTid(used: set<nat>, first: nat, ended: bool) returns (taken: TakenTid)
    requires first <= MAX_UINT64
    ensures taken == TakeTid(used, first, ended)
  {
    hide TakeTid;
    var next: nat, exhausted := first, ended;
    while !exhausted
      invariant next <= MAX_UINT64 && TakeTid(used, first, ended) == TakeTid(used, next, exhausted)
      decreases if exhausted then 0 else MAX_UINT64 - next + 1, next == 0
    {
      TakesOne(used, next, exhausted);
      var tid := if next == 0 then 1 else next;
      if tid == MAX_UINT64 {
        exhausted, next := true, 0;
      } else {
        next := tid + 1;
      }
      if tid !in used { return TakenTid(Some(tid), next, exhausted); }
    }
    TakesOne(used, next, exhausted);
    return TakenTid(None, next, exhausted);
  }

  /** What becomes of a command that was not refused and has no transaction yet. */
  ghost function AfterNumbering(s: State, command: Command): (t: State)
    requires s.nextTid <= MAX_UINT64
  {
    var taken := TakeTid(Tids(s.pending), s.nextTid, s.tidExhausted);
    var numbered := s.(nextTid := taken.next, tidExhausted := taken.exhausted);
    if taken.tid.None? then Record(FailTerminal(numbered), command, [Delivery(Failed(false), AtSubmit)])
    else Admit(Record(numbered, command, []), command, taken.tid.value)
  }

  lemma SubmitCases(s: State, command: Command, cancelled: bool)
    requires s.nextTid <= MAX_UINT64
    ensures Refused(s, command, cancelled) ==>
      Submit(s, command, cancelled) == Record(s, command, [Delivery(Failed(false), AtSubmit)])
    ensures !Refused(s, command, cancelled) && command.tid != 0 ==>
      && command.tid !in Tids(s.pending)
      && Submit(s, command, cancelled) == Admit(Record(s, command, []), command, command.tid)
    ensures !Refused(s, command, cancelled) && command.tid == 0 ==>
              Submit(s, command, cancelled) == AfterNumbering(s, command)
  {
    hide TakeTid, FailTerminal, Record, Admit, Saturated, Tids;
  }

  lemma IdCases(s: State, id: RequestId)
    ensures id !in Ids(s.pending) <==> FindId(s.pending, id) == |s.pending|
  {
    hide FindId;
    var index := FindId(s.pending, id);
    if index < |s.pending| { assert s.pending[index].id == id; }
  }

  lemma TidCases(s: State, tid: nat)
    ensures tid !in Tids(s.pending) <==> FindTid(s.pending, tid) == |s.pending|
  {
    hide FindTid;
    var index := FindTid(s.pending, tid);
    if index < |s.pending| { assert s.pending[index].tid == tid; }
  }

  lemma CancelCases(s: State, id: RequestId)
    ensures id !in Ids(s.pending) ==> Cancel(s, id) == s
    ensures id in Ids(s.pending) ==>
      var index := FindId(s.pending, id);
      && index < |s.pending|
      && Cancel(s, id) == Settle(s, map[id := Delivery(Failed(s.pending[index].mayHaveExecuted), AtCancel)])
  {
    hide Settle, FindId;
    IdCases(s, id);
  }

  lemma BoundedTids(s: State)
    requires Invariant(s)
    ensures s.nextTid <= MAX_UINT64
  {
    hide Shaped, Listed, SessionInvariant.Known, Numbered, Ordered, Ahead, RowsBounded, InTurn, Admissible,
        QueueBounded, Quiet;
  }

  lemma NewRequest(s: State, event: Event)
    requires Invariant(s) && event.SubmitEvent? && SessionRuns.Offered(s, event)
    ensures event.command.id !in Ids(s.pending)
  {
    hide Shaped, Listed, SessionInvariant.Known, Numbered, Ordered, Ahead, RowsBounded, InTurn, Admissible,
        QueueBounded, Quiet;
    SessionRuns.NewIsUnlisted(HistoryOf(s), s.pending, event.command.id);
  }
}
