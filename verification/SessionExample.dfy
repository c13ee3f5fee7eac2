/** A run in which a request that was sent fails without the outcome being called unknown: it
    is replayed after a reconnect and its caller gives up before the replay is written. And one in
    which a request is written again although the server acknowledged it when it took the session up. */
module SessionExample {
  import opened Common
  import opened SessionState
  import opened SessionSteps
  import opened SessionRuns
  import SessionAnswers

  predicate AllFit(frame: ControlFrame) { true }

  const CONFIG := Config(10, 1000, 10, 0, 10, ReplayPending, AllFit)
  const COMMAND := Command(5, 0, 10, false, false, 0, true, false)
  const COOKIE := 7

  const ROW := Entry(5, 1, 10, false, false, 0, 0, false, false)
  const SENT := ROW.(sequence := 1, sent := true, mayHaveExecuted := true)
  const REPLAY := SENT.(sent := false)

  function Started(): State { Start(CONFIG, true, COOKIE, 0) }

  function Submitted(): State {
    Started().(nextTid := 2, pending := [ROW], commands := map[5 := COMMAND], results := map[5 := []],
               admissions := map[5 := 0], admitted := 1)
  }

  function Written(): State {
    Submitted().(nextOutbound := 2, pending := [SENT], replay := [5], writeBusy := true, dispatched := {5},
                 written := [Write(5, 1, false, false)])
  }

  function Cut(): State {
    Written().(pending := [REPLAY], writeBusy := false, linked := false, phase := Disconnected, controlGeneration := 2,
               reconnectAttempts := 1, connectPending := true, generation := 2)
  }

  function Reopened(): State {
    Cut().(connectPending := false, connectSequence := 1, linked := true, generation := 3, phase := Reconnecting,
           written := [],
           controlQueue := [ReconnectFrame(1, 0)])
  }

  function Resumed(): State { Reopened().(transitions := 1, reconnectAttempts := 0, phase := Ready) }

  function Greeting(): State { Resumed().(controlQueue := [], writeBusy := true) }

  function Greeted(): State { Greeting().(writeBusy := false) }

  function GivenUp(): State {
    Greeted().(pending := [], replay := [], results := map[5 := [Delivery(Failed(false), AtRedispatch)]])
  }

  const EVENTS := [
    SubmitEvent(COMMAND, false), DispatchEvent(false), FaultEvent(1),
        ConnectedEvent(2, Transport(true, true, false, true)),
    ControlEvent(3, ReconnectOk(0)), DispatchEvent(false), WrittenEvent(3, None, false), DispatchEvent(true)]

  function States(): seq<State> {
    [Started(), Submitted(), Written(), Cut(), Reopened(), Resumed(), Greeting(), Greeted(), GivenUp()]
  }

  // ---------------------------------------------------------------- one row

  lemma OneRow(row: Entry, weight: Entry -> nat)
    ensures SumOf([row], weight) == weight(row)
  {
    assert [row][..0] == [] && SumOf([], weight) == 0;
  }

  lemma NoRows(weight: Entry -> nat) ensures SumOf([], weight) == 0 { }

  lemma FindOne(row: Entry)
    ensures FindId([row], row.id) == 0 && Ids([row]) == {row.id} && Tids([row]) == {row.tid}
  {
    assert [row][..0] == [] && FindId([], row.id) == 0;
  }

  lemma NextOne(row: Entry)
    requires !row.control && !row.sent
    ensures NextWrite([row]) == 0
  {
    OneRow(row, ControlRow);
    assert Unsent([row][0]);
  }

  lemma ChosenNone(row: Entry, unknown: Entry -> bool, site: Site)
    requires row.generation == 0
    ensures Chosen([row], ScopedRow, unknown, site) == map[]
  {
    assert [row][..0] == [] && Chosen([], ScopedRow, unknown, site) == map[];
  }

  lemma DropOne(row: Entry, ids: set<RequestId>)
    ensures Drop([row], ids) == if row.id in ids then [] else [row]
    ensures DropIds([row.id], ids) == if row.id in ids then [] else [row.id]
  {
    assert [row][..0] == [] && Drop([], ids) == [] && [row.id][..0] == [] && DropIds([], ids) == [];
  }

  // ---------------------------------------------------------------- the steps

  lemma Submits() ensures Step(Started(), EVENTS[0]) == Submitted()
  {
    NoRows(ControlRow);
    NoRows(ApplicationBytes);
    assert Tids(Started().pending) == {};
    assert TakeTid({}, 1, false) == TakenTid(Some(1), 2, false);
    assert Started().commands[5 := COMMAND] == map[5 := COMMAND];
  }

  lemma Writes() ensures Step(Submitted(), EVENTS[1]) == Written()
  {
    NextOne(ROW);
    OneRow(ROW, InFlightRow);
  }

  lemma DeliveredNone(results: map<RequestId, seq<Delivery>>)
    ensures Delivered(results, map[]) == results
  {
    var none: map<RequestId, Delivery> := map[];
    forall id | id in results
      ensures Delivered(results, none)[id] == results[id]
    {
      assert results[id] + [] == results[id];
    }
  }

  lemma Invalidates() ensures InvalidateControls(Written()) == Written().(controlGeneration := 2)
  {
    hide Delivered;
    ChosenNone(SENT, NoRow, AtInvalidate);
    DropOne(SENT, {});
    DeliveredNone(Written().results);
    var none: map<RequestId, Delivery> := map[];
    assert none.Keys == {};
  }

  lemma Cuts() ensures Step(Written(), EVENTS[2]) == Cut()
  {
    hide InvalidateControls;
    Invalidates();
    assert Unsend([SENT], [5]) == [REPLAY];
  }

  lemma Reopens() ensures Step(Cut(), EVENTS[3]) == Reopened() { }

  lemma Resumes() ensures Step(Reopened(), EVENTS[4]) == Resumed()
  {
    FindOne(REPLAY);
    assert SequenceOf([REPLAY], 5) == 1;
    assert Trimmed([5], [REPLAY], 0) == [5];
    assert Unsend([REPLAY], [5]) == [REPLAY];
  }

  lemma Greets() ensures Step(Resumed(), EVENTS[5]) == Greeting() && Step(Greeting(), EVENTS[6]) == Greeted()
  {
  }

  lemma DeliveredFirst(d: Delivery)
    ensures Delivered(map[5 := []], map[5 := d]) == map[5 := [d]]
  {
    var results: map<RequestId, seq<Delivery>>, deliver := map[5 := []], map[5 := d];
    assert results.Keys == {5} && deliver.Keys == {5};
    var all := Delivered(results, deliver);
    assert all.Keys == {5};
    assert all[5] == [] + [d] == [d];
    assert map[5 := [d]].Keys == {5};
  }

  lemma GivesUp() ensures Step(Greeted(), EVENTS[7]) == GivenUp()
  {
    NextOne(REPLAY);
    OneRow(REPLAY, InFlightRow);
    var deliver := map[5 := Delivery(Failed(false), AtRedispatch)];
    assert deliver.Keys == {5};
    DropOne(REPLAY, {5});
    assert Greeted().results == map[5 := []];
    DeliveredFirst(deliver[5]);
  }

  lemma IsNext() ensures SessionAnswers.Redispatched(Greeted(), EVENTS[7], 5)
  {
    NextOne(REPLAY);
    OneRow(REPLAY, InFlightRow);
  }

  /** The request was handed to a writer and failed, and yet its outcome is not called unknown. */
  lemma RedispatchIsSilent()
    ensures IsRun(States(), EVENTS)
    ensures SessionAnswers.Redispatched(States()[7], EVENTS[7], 5)
    ensures var last := States()[8];
            && 5 in last.dispatched && !last.commands[5].control
            && last.results[5] == [Delivery(Failed(false), AtRedispatch)]
  {
    hide Step, Start;
    Submits();
    Writes();
    Cuts();
    Reopens();
    Resumes();
    Greets();
    GivesUp();
    IsNext();
    var states := States();
    assert states[0] == Start(CONFIG, true, COOKIE, 0);
    forall i | 0 <= i < 8
      ensures states[i].nextTid <= MAX_UINT64 && Offered(states[i], EVENTS[i])
              && states[i + 1] == Step(states[i], EVENTS[i])
    {
      NextTids(i);
      NothingAsked();
      if i < 4 { assert i == 0 || i == 1 || i == 2 || i == 3; } else { assert i == 4 || i == 5 || i == 6 || i == 7; }
    }
  }

  lemma NothingAsked() ensures COMMAND.id !in Started().commands { }

  lemma NextTids(i: nat)
    requires i < 9
    ensures States()[i].nextTid <= MAX_UINT64
  {
  }

  // ---------------------------------------------------------------- written again although acknowledged

  function Told(): State { Resumed().(replay := []) }

  function Telling(): State { Told().(controlQueue := [], writeBusy := true) }

  function Ended(): State { Telling().(writeBusy := false) }

  function Again(): State {
    Ended().(pending := [SENT], replay := [5], writeBusy := true, written := [Write(5, 1, true, false)])
  }

  const TOLD := EVENTS[..4] + [ControlEvent(3, ReconnectOk(1)), DispatchEvent(false), WrittenEvent(3, None, false),
                               DispatchEvent(false)]

  function ToldStates(): seq<State> {
    [Started(), Submitted(), Written(), Cut(), Reopened(), Told(), Telling(), Ended(), Again()]
  }

  lemma Tells() ensures Step(Reopened(), TOLD[4]) == Told()
  {
    FindOne(REPLAY);
    assert SequenceOf([REPLAY], 5) == 1;
    assert Trimmed([5], [REPLAY], 1) == [];
    assert Unsend([REPLAY], []) == [REPLAY];
  }

  lemma TellsOn() ensures Step(Told(), TOLD[5]) == Telling() && Step(Telling(), TOLD[6]) == Ended()
  {
  }

  lemma WritesAgain() ensures Step(Ended(), TOLD[7]) == Again()
  {
    NextOne(REPLAY);
    OneRow(REPLAY, InFlightRow);
  }

  lemma ToldBefore(i: nat)
    requires i < 4
    ensures TOLD[i] == EVENTS[i] && Offered(ToldStates()[i], TOLD[i]) && ToldStates()[i].nextTid <= MAX_UINT64
    ensures ToldStates()[i + 1] == Step(ToldStates()[i], TOLD[i])
  {
    hide Step, Start;
    Submits();
    Writes();
    Cuts();
    Reopens();
    ToldTids(i);
    NothingAsked();
    assert i == 0 || i == 1 || i == 2 || i == 3;
  }

  lemma ToldAfter(i: nat)
    requires 4 <= i < 8
    ensures Offered(ToldStates()[i], TOLD[i]) && ToldStates()[i].nextTid <= MAX_UINT64
    ensures ToldStates()[i + 1] == Step(ToldStates()[i], TOLD[i])
  {
    hide Step, Start;
    Tells();
    TellsOn();
    WritesAgain();
    ToldTids(i);
    assert i == 4 || i == 5 || i == 6 || i == 7;
  }

  /** The server acknowledges sequence 1, and the next message written carries it. */
  lemma AcknowledgedIsRewritten()
    ensures IsRun(ToldStates(), TOLD) && TOLD[4] == ControlEvent(3, ReconnectOk(1))
    ensures ToldStates()[5].phase == Ready && ToldStates()[8].written == [Write(5, 1, true, false)]
  {
    hide Step, Start, Offered;
    var states := ToldStates();
    assert states[0] == Start(CONFIG, true, COOKIE, 0);
    forall i | 0 <= i < 8
      ensures states[i].nextTid <= MAX_UINT64 && Offered(states[i], TOLD[i])
              && states[i + 1] == Step(states[i], TOLD[i])
    {
      if i < 4 { ToldBefore(i); } else { ToldAfter(i); }
    }
  }

  lemma ToldTids(i: nat)
    requires i < 9
    ensures ToldStates()[i].nextTid <= MAX_UINT64
  {
  }
}
