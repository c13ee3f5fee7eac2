/** The messenger session owner as values: what one owner goroutine remembers,
    and what each branch of its select loop does to it.

    The request table is its rows in admission order (the order of the linked
    list) plus the replay list; the array, the two maps and the running counters
    that the owner keeps beside it are in RequestTable and are proved to describe
    these same rows. */
module SessionState {

  const MAX_CONTROL_MESSAGES: nat := 16
  const MAX_CONTROL_RETAINED_BYTES: nat := 0x10_0000

  /** The identity of one submitted command (its address in the original). */
  type RequestId = nat

  datatype Phase = Disconnected | Connecting | Reconnecting | Ready | Waiting | Stopped

  datatype Policy = FailPending | ReplayPending

  datatype ControlFrame =
    | AckFrame(sequence: nat)
    | KeepaliveAckFrame
    | ClientIdentFrame
    | ReconnectFrame(connectSequence: nat, messageSequence: nat)

  datatype Config = Config(
    maxQueued: nat,
    maxRetained: nat,
    maxInFlight: nat,
    maxReconnects: nat,
    maxTransitions: nat,
    policy: Policy,
    fits: ControlFrame -> bool)

  /** A submitted command. `wellFormed` is the verdict of the admission size and
      length checks, `validControl` that of the control-lane format check. */
  datatype Command = Command(
    id: RequestId,
    tid: nat,
    bytes: nat,
    control: bool,
    oneWay: bool,
    generation: nat,
    wellFormed: bool,
    validControl: bool)

  /** One row of the request table. `sequence == 0` means not yet numbered. */
  datatype Entry = Entry(
    id: RequestId,
    tid: nat,
    bytes: nat,
    control: bool,
    oneWay: bool,
    generation: nat,
    sequence: nat,
    sent: bool,
    mayHaveExecuted: bool)

  /** Where in the owner a result was produced. */
  datatype Site =
    | AtSubmit | AtReply | AtWritten | AtCancel | AtRedispatch | AtInvalidate | AtFailSent | AtFailAll

  datatype Outcome = Replied | Sent | Failed(unknown: bool)

  datatype Delivery = Delivery(outcome: Outcome, site: Site)

  /** One message frame handed to the writer of the current transport. */
  datatype Write = Write(id: RequestId, sequence: nat, replay: bool, control: bool)

  /** A request of the application written for the first time. */
  predicate FirstWrite(write: Write) { !write.replay && !write.control }

  datatype State = State(
    config: Config,
    phase: Phase,
    linked: bool,
    generation: nat,
    writeBusy: bool,
    controlQueue: seq<ControlFrame>,
    pendingAck: nat,
    pending: seq<Entry>,
    replay: seq<RequestId>,
    nextOutbound: nat,
    sequenceExhausted: bool,
    lastInbound: nat,
    nextTid: nat,
    tidExhausted: bool,
    serverCookie: nat,
    lossy: bool,
    connectSequence: nat,
    connectedOnce: bool,
    reconnectAttempts: nat,
    transitions: nat,
    connectPending: bool,
    terminal: bool,
    renewalPending: bool,
    controlGeneration: nat,
    // What the outside has seen so far.
    commands: map<RequestId, Command>,
    dispatched: set<RequestId>,
    results: map<RequestId, seq<Delivery>>,
    written: seq<Write>,
    // When each admitted command was admitted, and how many were.
    admissions: map<RequestId, nat>,
    admitted: nat)

  // ---------------------------------------------------------------- rows

  function Ids(rows: seq<Entry>): (ids: set<RequestId>) {
    set i | 0 <= i < |rows| :: rows[i].id
  }

  function Tids(rows: seq<Entry>): (tids: set<nat>) {
    set i | 0 <= i < |rows| :: rows[i].tid
  }

  predicate Unsent(row: Entry) { !row.sent }

  predicate UnsentReplay(row: Entry) { !row.sent && row.sequence != 0 }

  predicate UnsentControl(row: Entry) { !row.sent && row.sequence == 0 && row.control }

  predicate UnsentApplication(row: Entry) { !row.sent && row.sequence == 0 && !row.control }

  /** Position of the first row from `from` on that satisfies `wanted`, or |rows|. */
  function FirstIndex(rows: seq<Entry>, wanted: Entry -> bool, from: nat): (index: nat)
    requires from <= |rows|
    ensures from <= index <= |rows|
    ensures index < |rows| ==> wanted(rows[index])
    ensures forall i :: from <= i < index ==> !wanted(rows[i])
    decreases |rows| - from
  {
    if from == |rows| || wanted(rows[from]) then from else FirstIndex(rows, wanted, from + 1)
  }

  /** Position of the row of this request, or |rows|. */
  function FindId(rows: seq<Entry>, id: RequestId): (index: nat)
    ensures index <= |rows|
    ensures index < |rows| ==> rows[index].id == id
    ensures index == |rows| ==> id !in Ids(rows)
  {
    if rows == [] then 0
    else
      var index := FindId(rows[..|rows| - 1], id);
      if index < |rows| - 1 || rows[|rows| - 1].id == id then index else |rows|
  }

  /** Position of the row of this transaction, or |rows|. */
  function FindTid(rows: seq<Entry>, tid: nat): (index: nat)
    ensures index <= |rows|
    ensures index < |rows| ==> rows[index].tid == tid
    ensures index == |rows| ==> tid !in Tids(rows)
  {
    if rows == [] then 0
    else
      var index := FindTid(rows[..|rows| - 1], tid);
      if index < |rows| - 1 || rows[|rows| - 1].tid == tid then index else |rows|
  }

  /** The rows, in order, whose ids are not in `ids`. */
  function Drop(rows: seq<Entry>, ids: set<RequestId>): (rest: seq<Entry>) {
    if rows == [] then []
    else Drop(rows[..|rows| - 1], ids) + (if rows[|rows| - 1].id in ids then [] else [rows[|rows| - 1]])
  }

  function DropIds(list: seq<RequestId>, ids: set<RequestId>): (rest: seq<RequestId>) {
    if list == [] then []
    else DropIds(list[..|list| - 1], ids) + (if list[|list| - 1] in ids then [] else [list[|list| - 1]])
  }

  function SumOf(rows: seq<Entry>, weight: Entry -> nat): (total: nat) {
    if rows == [] then 0 else SumOf(rows[..|rows| - 1], weight) + weight(rows[|rows| - 1])
  }

  function ApplicationBytes(row: Entry): (n: nat) { if row.control then 0 else row.bytes }
  function ControlBytes(row: Entry): (n: nat) { if row.control then row.bytes else 0 }
  function ControlRow(row: Entry): (n: nat) { if row.control then 1 else 0 }
  function InFlightRow(row: Entry): (n: nat) { if row.sent && !row.control then 1 else 0 }
}
