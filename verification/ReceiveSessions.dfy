/** Many sessions on one receive budget. A reader or a returned buffer takes the budget's lock
    several times; what happens under one holding of it is one step here, and the steps of
    different readers and scratches come in any order. */
module ReceiveSessions {
  import opened Common
  import opened ReceiveBudget
  import opened Preamble
  import F = SecureFrame

  // ---------------------------------------------------------------- what a frame needs

  /** What reading one secure frame reserves: at most `peak` bytes while it is read, `retained`
      afterwards, of which `size` are for one buffer with everything behind the first segment. */
  datatype Plan = Plan(peak: nat, retained: nat, size: nat, control: bool)

  /** A control frame that fits the prelude is left on the allowance for preludes. */
  predicate InlineControl(tag: Byte, ds: seq<Descriptor>)
    requires ds != []
  {
    tag != TAG_MESSAGE && F.Padded(ds[0].length) <= F.INLINE && |ds| == 1
  }

  function PlanOf(tag: Byte, ds: seq<Descriptor>): (plan: Plan)
    requires ds != []
  {
    var first := F.Padded(ds[0].length);
    var large := first > F.INLINE;
    var rest := F.WireSize(ds) - PRELUDE - (if large then first - F.INLINE + F.TAG else 0);
    if InlineControl(tag, ds) then Plan(0, 0, rest, true)
    else Plan(PRELUDE + (if large then first + first - F.INLINE + F.TAG else 0) + rest,
              (if large then first + PRELUDE else PRELUDE) + rest, rest, false)
  }

  /** The buffers that are made to read a frame, in order: the prelude, the sealed rest of the
      first segment and that segment opened when it does not fit the prelude, and the rest. */
  function Made(ds: seq<Descriptor>): (sizes: seq<nat>)
    requires ds != []
  {
    [PRELUDE]
    + (if F.OverflowSize(ds) > 0 then [F.OverflowSize(ds) + F.TAG, F.Padded(ds[0].length)] else [])
    + (if |ds| > 1 then [F.RestSize(ds[1..]) + F.BLOCK + F.TAG] else [])
  }

  /** Those a frame goes on to hold: all but the sealed rest of the first segment. */
  function Held(ds: seq<Descriptor>): (sizes: seq<nat>)
    requires ds != []
  {
    if F.OverflowSize(ds) > 0 then [Made(ds)[0]] + Made(ds)[2..] else Made(ds)
  }

  function Sum(sizes: seq<nat>): (total: nat) { if sizes == [] then 0 else sizes[0] + Sum(sizes[1..]) }

  /** The peak is exactly what is made and the remainder exactly what is held, or nothing for a
      control frame in the prelude; neither passes 64 bits. */
  lemma PlanCovers(tag: Byte, ds: seq<Descriptor>)
    requires ds != []
    ensures var plan := PlanOf(tag, ds);
            && plan.size == (if |ds| > 1 then F.RestSize(ds[1..]) + F.BLOCK + F.TAG else 0)
            && (plan.control ==> Made(ds) == [PRELUDE] && plan.peak == plan.retained == 0)
            && (!plan.control ==> plan.peak == Sum(Made(ds)) && plan.retained == Sum(Held(ds)))
            && plan.size <= plan.retained <= plan.peak
    ensures F.WireSize(ds) <= F.MAX_INT ==> Sensible(PlanOf(tag, ds))
  {
    SumOf(Made(ds));
    SumOf(Held(ds));
  }

  lemma SumOf(sizes: seq<nat>)
    ensures |sizes| == 1 ==> Sum(sizes) == sizes[0]
    ensures |sizes| == 2 ==> Sum(sizes) == sizes[0] + sizes[1]
    ensures |sizes| == 3 ==> Sum(sizes) == sizes[0] + sizes[1] + sizes[2]
    ensures |sizes| == 4 ==> Sum(sizes) == sizes[0] + sizes[1] + sizes[2] + sizes[3]
  {
    if |sizes| == 3 { assert Sum(sizes[1..]) == sizes[1] + sizes[2]; }
    if |sizes| == 4 { assert Sum(sizes[1..][1..]) == sizes[2] + sizes[3]; }
  }

  predicate Sensible(plan: Plan) { plan.size <= plan.retained <= plan.peak <= MAX_UINT64 }

  // ---------------------------------------------------------------- where everybody is

  /** How far the holder of a lease is. */
  datatype Stage =
    | Begun                    // nothing reserved
    | Prelude                  // the prelude is
    | Refused(plan: Plan)      // the peak was refused once
    | Dropping(plan: Plan)     // it waits while idle buffers are given up
    | Retrying(plan: Plan)     // they are gone
    | Granted(plan: Plan)      // the peak is reserved
    | Ready(plan: Plan)        // and the prelude's reservation settled
    | Asking(plan: Plan)       // it is in the middle of getting a buffer
    | Filled(plan: Plan)       // it has one, or needs none
    | Kept(plan: Plan)         // the frame is read; the lease is charged for what it holds
    | Failed                   // reading failed
    | Wiped                    // the buffer is cleared, on its way back
    | Parking                  // it is in the middle of returning it
    | Gone                     // the lease is over

  datatype Reader = Reader(home: Scratch, stage: Stage)

  /** What the holder of a scratch's lock is in the middle of. */
  datatype Work = Free | Getting(lease: Lease,
                                 hand: array?<int>) | Putting(lease: Lease) | Emptying(lease: Lease) | Closing

  /** A scratch: its idle leases, whether it is closed, and what its lock is held for. */
  datatype Station = Station(idle: seq<Lease>, closed: bool, work: Work)

  /** Everything at one moment; `blank` are buffers that are known to be clear. */
  datatype World = World(leases: seq<Lease>, rows: seq<Row>, slots: nat, stations: map<Scratch, Station>,
                         readers: map<Lease, Reader>, blank: set<array<int>>)

  function Hand(st: Station): array?<int> { if st.work.Getting? then st.work.hand else null }

  function Fixed(plan: Plan): (control: nat) { if plan.control then PRELUDE else 0 }

  /** What a lease is charged for and holds, by how far its holder is. */
  ghost predicate InStage(row: Row, r: Reader) {
    && row.parked == null && (row.scratch != null ==> row.scratch == r.home && row.backing != null)
    && match r.stage
       case Begun => row == EMPTY
       case Prelude => row == EMPTY.(control := PRELUDE)
       case Refused(p) => row == EMPTY.(control := PRELUDE) && Sensible(p)
       case Dropping(p) => row == EMPTY.(control := PRELUDE) && Sensible(p)
       case Retrying(p) => row == EMPTY.(control := PRELUDE) && Sensible(p)
       case Granted(p) => row == EMPTY.(bytes := p.peak, control := PRELUDE) && Sensible(p)
       case Ready(p) => row == EMPTY.(bytes := p.peak, control := Fixed(p)) && Sensible(p)
       case Asking(p) => row == EMPTY.(bytes := p.peak, control := Fixed(p)) && Sensible(p)
       case Filled(p) => row.bytes == p.peak + row.extra && row.control == Fixed(p) && Holds(row, p)
       case Kept(p) => row.bytes >= p.retained + row.extra && row.control == Fixed(p) && Holds(row, p)
       case Failed => true
       case Wiped => row.scratch != null
       case Parking => row.scratch != null && row.control == 0
       case Gone => row == EMPTY
  }

  /** A buffer that goes back to a scratch is the one for the plan and what it has beyond it. */
  ghost predicate Holds(row: Row, plan: Plan) {
    && Sensible(plan)
    && if row.backing == null then row.extra == 0
       else row.scratch != null && row.backing.Length == plan.size + row.extra
  }

  /** The buffer of a lease is cleared on its way back, and not before. */
  ghost predicate Marked(blank: set<array<int>>, row: Row, stage: Stage) {
    row.backing != null ==> (row.backing in blank <==> stage.Wiped? || stage.Parking?)
  }

  ghost predicate Known(w: World, l: Lease) { l.slot < |w.leases| == |w.rows| && w.leases[l.slot] == l }

  ghost predicate ReaderOk(w: World, l: Lease, r: Reader) {
    Known(w, l) && r.home in w.stations && InStage(w.rows[l.slot], r) && Marked(w.blank, w.rows[l.slot], r.stage)
  }

  /** The idle leases are parked here, each once, with clear buffers. */
  ghost predicate IdleOk(w: World, s: Scratch, idle: seq<Lease>) {
    && |idle| <= w.slots && (forall i, j :: 0 <= i < j < |idle| ==> idle[i] != idle[j])
    && forall i :: 0 <= i < |idle| ==>
         Known(w, idle[i]) && w.rows[idle[i].slot].parked == s && w.rows[idle[i].slot].backing in w.blank
  }

  /** A scratch's lock is held for a reader of its own that is in the middle of the same thing. */
  ghost predicate WorkOk(w: World, s: Scratch, st: Station) {
    match st.work
    case Free => true
    case Getting(l, hand) =>
      && l in w.readers && w.readers[l].home == s && w.readers[l].stage.Asking?
      && (hand != null ==> w.readers[l].stage.plan.size <= hand.Length && hand in w.blank && Unheld(w.rows, hand))
    case Putting(l) => l in w.readers && w.readers[l] == Reader(s, Parking) && !st.closed && |st.idle| < w.slots
    case Emptying(l) => l in w.readers && w.readers[l].home == s && w.readers[l].stage.Dropping?
    case Closing => st.closed
  }

  ghost predicate HandsApart(stations: map<Scratch, Station>) {
    forall s, t :: s in stations && t in stations && s != t ==>
        Hand(stations[s]) == null || Hand(stations[s]) != Hand(stations[t])
  }

  /** Every scratch's idle buffers are on the books, clear, and no more than there are slots for;
      every lease in use holds what its holder's stage says; a buffer in hand is nobody else's. */
  ghost predicate Sane(w: World) {
    && (forall s :: s in w.stations ==> IdleOk(w, s, w.stations[s].idle) && WorkOk(w, s, w.stations[s]))
    && (forall l :: l in w.readers ==> ReaderOk(w, l, w.readers[l]))
    && HandsApart(w.stations)
  }

  // ---------------------------------------------------------------- what steps keep

  /** The holder is in the middle of nothing that a scratch's lock is held for. */
  predicate Loose(stage: Stage) { !stage.Asking? && !stage.Dropping? && !stage.Parking? }

  function AtStage(readers: map<Lease, Reader>, l: Lease, stage: Stage): map<Lease, Reader>
    requires l in readers
  {
    readers[l := Reader(readers[l].home, stage)]
  }

  /** A reader goes on, with the buffer it has or without one. */
  lemma GoesOn(w: World, l: Lease, row: Row, stage: Stage)
    requires Sane(w) && l in w.readers && Loose(w.readers[l].stage)
    requires row.backing == null || row.backing == w.rows[l.slot].backing
    requires InStage(row, Reader(w.readers[l].home, stage)) && Marked(w.blank, row, stage)
    ensures Known(w, l) && Sane(w.(rows := w.rows[l.slot := row], readers := AtStage(w.readers, l, stage)))
  {
    var v := w.(rows := w.rows[l.slot := row], readers := AtStage(w.readers, l, stage));
    forall s | s in v.stations ensures IdleOk(v, s, v.stations[s].idle) && WorkOk(v, s, v.stations[s]) {
      assert IdleOk(w, s, w.stations[s].idle) && WorkOk(w, s, w.stations[s]);
    }
    forall m | m in v.readers ensures ReaderOk(v, m, v.readers[m]) {
      assert ReaderOk(w, m, w.readers[m]);
    }
  }

  /** A read begins with a lease of nothing. */
  lemma Enters(w: World, l: Lease, home: Scratch)
    requires Sane(w) && |w.leases| == |w.rows| == l.slot && home in w.stations
    ensures Sane(w.(leases := w.leases + [l], rows := w.rows + [EMPTY], readers := w.readers[l := Reader(home, Begun)]))
  {
    var v := w.(leases := w.leases + [l], rows := w.rows + [EMPTY], readers := w.readers[l := Reader(home, Begun)]);
    forall s | s in v.stations ensures IdleOk(v, s, v.stations[s].idle) && WorkOk(v, s, v.stations[s]) {
      assert IdleOk(w, s, w.stations[s].idle) && WorkOk(w, s, w.stations[s]);
    }
    forall m | m in v.readers ensures ReaderOk(v, m, v.readers[m]) {
      if m != l { assert ReaderOk(w, m, w.readers[m]); }
    }
  }

  /** A transport begins with an empty scratch. */
  lemma Opens(w: World, s: Scratch)
    requires Sane(w) && s !in w.stations
    ensures Sane(w.(stations := w.stations[s := Station([], false, Free)]))
  {
    var v := w.(stations := w.stations[s := Station([], false, Free)]);
    forall t | t in v.stations ensures IdleOk(v, t, v.stations[t].idle) && WorkOk(v, t, v.stations[t]) {
      if t != s { assert IdleOk(w, t, w.stations[t].idle) && WorkOk(w, t, w.stations[t]); }
    }
    forall m | m in v.readers ensures ReaderOk(v, m, v.readers[m]) { assert ReaderOk(w, m, w.readers[m]); }
  }

  function Without<T>(list: seq<T>, i: nat): (r: seq<T>)
    requires i < |list|
    ensures |r| == |list| - 1
  {
    list[..i] + list[i + 1..]
  }

  /** An idle lease is released. */
  lemma IdleGoes(w: World, s: Scratch, i: nat)
    requires Sane(w) && s in w.stations && i < |w.stations[s].idle|
    ensures var st := w.stations[s];
            && Known(w, st.idle[i]) && w.rows[st.idle[i].slot].backing in w.blank
            && Sane(w.(rows := w.rows[st.idle[i].slot := EMPTY],
                       stations := w.stations[s := st.(idle := Without(st.idle, i))]))
  {
    hide InStage, Marked, Without, HandsApart;
    var st := w.stations[s];
    var gone := st.idle[i];
    assert IdleOk(w, s, st.idle) && WorkOk(w, s, st);
    hide IdleOk;
    var v := w.(rows := w.rows[gone.slot := EMPTY], stations := w.stations[s := st.(idle := Without(st.idle, i))]);
    IdleSame(w.(rows := v.rows), v);
    HandsStay(w.stations, s, v.stations[s]);
    forall t | t in v.stations ensures IdleOk(v, t, v.stations[t].idle) && WorkOk(v, t, v.stations[t]) {
      assert IdleOk(w, t, w.stations[t].idle) && WorkOk(w, t, w.stations[t]);
      if t == s { IdleLess(w, s, st.idle, i); } else { IdleElsewhere(w, s, t, gone); }
    }
    forall m | m in v.readers ensures ReaderOk(v, m, v.readers[m]) {
      assert ReaderOk(w, m, w.readers[m]);
      ReaderNotParked(w, m);
    }
  }

  lemma ReaderNotParked(w: World, l: Lease)
    requires l in w.readers && ReaderOk(w, l, w.readers[l])
    ensures w.rows[l.slot].parked == null
  {
  }

  lemma IdleLess(w: World, s: Scratch, idle: seq<Lease>, i: nat)
    requires IdleOk(w, s, idle) && i < |idle|
    ensures IdleOk(w.(rows := w.rows[idle[i].slot := EMPTY]), s, Without(idle, i))
  {
    var left := Without(idle, i);
    assert forall k :: 0 <= k < |left| ==> left[k] == idle[if k < i then k else k + 1];
  }

  lemma IdleElsewhere(w: World, s: Scratch, t: Scratch, gone: Lease)
    requires t in w.stations && Known(w, gone) && w.rows[gone.slot].parked == s != t
    requires IdleOk(w, t, w.stations[t].idle)
    ensures IdleOk(w.(rows := w.rows[gone.slot := EMPTY]), t, w.stations[t].idle)
  {
  }

  /** Idle leases do not depend on readers and on what locks are held for. */
  lemma IdleSame(w: World, v: World)
    requires v.leases == w.leases && v.rows == w.rows && v.slots == w.slots && v.blank == w.blank
    ensures forall s, idle :: IdleOk(v, s, idle) <==> IdleOk(w, s, idle)
  {
  }

  lemma HandsStay(stations: map<Scratch, Station>, s: Scratch, st: Station)
    requires HandsApart(stations)
    requires Hand(st) == null || (s in stations && Hand(st) == Hand(stations[s]))
             || forall t :: t in stations && t != s ==> Hand(stations[t]) != Hand(st)
    ensures HandsApart(stations[s := st])
  {
  }

  /** A scratch's lock is taken or given up, together with the stage of the reader it is for. */
  lemma Turns(w: World, s: Scratch, st: Station, readers: map<Lease, Reader>)
    requires Sane(w) && s in w.stations && st.idle == w.stations[s].idle
    requires Hand(st) == null || forall t :: t in w.stations && t != s ==> Hand(w.stations[t]) != Hand(st)
    requires WorkOk(w.(readers := readers), s, st) && readers.Keys == w.readers.Keys
    requires forall l :: l in readers && readers[l] != w.readers[l] ==>
               && readers[l].home == w.readers[l].home == s
               && InStage(w.rows[l.slot], readers[l]) && Marked(w.blank, w.rows[l.slot], readers[l].stage)
    ensures Sane(w.(stations := w.stations[s := st], readers := readers))
  {
    hide InStage, Marked, IdleOk, HandsApart;
    var v := w.(stations := w.stations[s := st], readers := readers);
    IdleSame(w, v);
    HandsStay(w.stations, s, st);
    forall t | t in v.stations ensures IdleOk(v, t, v.stations[t].idle) && WorkOk(v, t, v.stations[t]) {
      assert IdleOk(w, t, w.stations[t].idle) && WorkOk(w, t, w.stations[t]);
    }
    forall m | m in v.readers ensures ReaderOk(v, m, v.readers[m]) { assert ReaderOk(w, m, w.readers[m]); }
  }

  /** A reader in the middle of getting a buffer has got one, or goes without. */
  lemma Gets(w: World, l: Lease, row: Row)
    requires Sane(w) && l in w.readers && w.readers[l].stage.Asking?
    requires var s := w.readers[l].home;
             && s in w.stations && w.stations[s].work.Getting? && w.stations[s].work.lease == l
             && InStage(row, Reader(s, Filled(w.readers[l].stage.plan)))
             && (row.backing != null ==>
                   && Unheld(w.rows, row.backing)
                   && forall t :: t in w.stations && t != s ==> Hand(w.stations[t]) != row.backing)
    ensures Known(w, l) && Sane(After(w, l, row))
  {
    hide HandsApart;
    var s := w.readers[l].home;
    var v := After(w, l, row);
    HandsStay(w.stations, s, v.stations[s]);
    forall t | t in v.stations ensures IdleOk(v, t, v.stations[t].idle) && WorkOk(v, t, v.stations[t]) {
      assert IdleOk(w, t, w.stations[t].idle) && WorkOk(w, t, w.stations[t]);
    }
    forall m | m in v.readers ensures ReaderOk(v, m, v.readers[m]) { assert ReaderOk(w, m, w.readers[m]); }
  }

  ghost function After(w: World, l: Lease, row: Row): World
    requires l in w.readers && w.readers[l].stage.Asking? && w.readers[l].home in w.stations && l.slot < |w.rows|
  {
    Unlocked(w.(rows := w.rows[l.slot := row]), l, row.backing)
  }

  /** The lock is given up, and the buffer is no longer known to be clear. */
  ghost function Unlocked(w: World, l: Lease, backing: array?<int>): World
    requires l in w.readers && w.readers[l].stage.Asking? && w.readers[l].home in w.stations
  {
    var s := w.readers[l].home;
    w.(stations := w.stations[s := w.stations[s].(work := Free)],
       readers := AtStage(w.readers, l, Filled(w.readers[l].stage.plan)),
       blank := if backing == null then w.blank else w.blank - {backing})
  }

  /** A buffer is cleared on its way back. */
  lemma Wipes(w: World, l: Lease)
    requires Sane(w) && Unique(w.rows) && l in w.readers && Loose(w.readers[l].stage) && Known(w, l)
    requires w.rows[l.slot].scratch != null && w.rows[l.slot].backing != null
    ensures Sane(w.(readers := AtStage(w.readers, l, Wiped), blank := w.blank + {w.rows[l.slot].backing}))
  {
    var v := w.(readers := AtStage(w.readers, l, Wiped), blank := w.blank + {w.rows[l.slot].backing});
    forall t | t in v.stations ensures IdleOk(v, t, v.stations[t].idle) && WorkOk(v, t, v.stations[t]) {
      assert IdleOk(w, t, w.stations[t].idle) && WorkOk(w, t, w.stations[t]);
    }
    forall m | m in v.readers ensures ReaderOk(v, m, v.readers[m]) { assert ReaderOk(w, m, w.readers[m]); }
  }

  /** A buffer is parked, under a lease of its own. */
  lemma Parks(w: World, l: Lease, entry: Lease)
    requires Sane(w) && l in w.readers && w.readers[l].stage == Parking && w.readers[l].home in w.stations
    requires w.stations[w.readers[l].home].work == Putting(l) && entry.slot == |w.leases|
    ensures Known(w, l) && w.rows[l.slot].backing != null && Sane(Put(w, l, entry))
  {
    hide InStage, Marked, HandsApart;
    var s := w.readers[l].home;
    assert ReaderOk(w, l, w.readers[l]) && IdleOk(w, s, w.stations[s].idle) && WorkOk(w, s, w.stations[s]);
    ParkingFacts(w, l);
    var v := Put(w, l, entry);
    HandsStay(w.stations, s, v.stations[s]);
    forall t | t in v.stations ensures IdleOk(v, t, v.stations[t].idle) && WorkOk(v, t, v.stations[t]) {
      assert IdleOk(w, t, w.stations[t].idle) && WorkOk(w, t, w.stations[t]);
    }
    forall m | m in v.readers ensures ReaderOk(v, m, v.readers[m]) { assert ReaderOk(w, m, w.readers[m]); }
  }

  lemma ParkingFacts(w: World, l: Lease)
    requires l in w.readers && w.readers[l].stage == Parking && ReaderOk(w, l, w.readers[l])
    ensures w.rows[l.slot].backing != null && w.rows[l.slot].backing in w.blank && w.rows[l.slot].parked == null
    ensures InStage(EMPTY, Reader(w.readers[l].home, Gone)) && Marked(w.blank, EMPTY, Gone)
  {
  }

  ghost function Put(w: World, l: Lease, entry: Lease): World
    requires l in w.readers && w.readers[l].home in w.stations && l.slot < |w.rows| && w.rows[l.slot].backing != null
  {
    var s := w.readers[l].home;
    var buffer := w.rows[l.slot].backing;
    w.(leases := w.leases + [entry], rows := w.rows[l.slot := EMPTY] + [Row(buffer.Length, 0, 0, buffer, null, s)],
       stations := w.stations[s := Station(w.stations[s].idle + [entry], w.stations[s].closed, Free)],
       readers := AtStage(w.readers, l, Gone))
  }

  // ---------------------------------------------------------------- the steps

  ghost predicate AllBlank(buffers: set<array<int>>)
    reads buffers
  {
    forall b :: b in buffers ==> Zeroed(b)
  }

  lemma StillBlank(buffers: set<array<int>>, fewer: set<array<int>>)
    requires AllBlank(buffers) && fewer <= buffers
    ensures AllBlank(fewer)
  {
  }

  class Sessions {
    const budget: Budget
    ghost var stations: map<Scratch, Station>
    ghost var readers: map<Lease, Reader>
    ghost var blank: set<array<int>>

    constructor (budget: Budget)
      requires budget.Valid() && budget.leases == [] && budget.sessions <= budget.maxSessions
      ensures Valid() && this.budget == budget && stations == map[] && readers == map[]
    {
      this.budget := budget;
      stations, readers, blank := map[], map[], {};
    }

    ghost function Seen(): World
      reads this, budget`leases, budget`slots, budget.leases
    {
      World(budget.leases, budget.Rows(), budget.slots, stations, readers, blank)
    }

    ghost predicate Mirrored()
      reads `stations, stations.Keys
    {
      forall s :: s in stations ==> s.idle == stations[s].idle && s.closed == stations[s].closed
    }

    /** The charge is the sum over all leases, in use or idle, and everybody is where they should be. */
    ghost predicate Valid()
      reads this, budget, budget.leases, stations.Keys, blank
    {
      budget.Valid() && budget.sessions <= budget.maxSessions && Mirrored() && AllBlank(blank) && Sane(Seen())
    }

    ghost predicate At(l: Lease, stage: Stage)
      reads `readers
    {
      l in readers && readers[l].stage == stage
    }

    // -------------------------------------------------------------- sessions, transports, readers

    method Admit() returns (ok: bool)
      requires Valid()
      modifies budget`sessions
      ensures Valid() && Seen() == old(Seen()) && (ok <==> old(budget.sessions) < budget.maxSessions)
      ensures budget.sessions == if ok then old(budget.sessions) + 1 else old(budget.sessions)
    {
      hide Budget.Valid, Sane;
      ok := budget.Admit();
    }

    method Retire()
      requires Valid() && budget.sessions > 0
      modifies budget`sessions
      ensures Valid() && Seen() == old(Seen()) && budget.sessions == old(budget.sessions) - 1
    {
      hide Budget.Valid, Sane;
      budget.Retire();
    }

    /** A transport starts with an empty scratch. */
    method Open() returns (scratch: Scratch)
      requires Valid()
      modifies `stations
      ensures Valid() && fresh(scratch) && stations == old(stations)[scratch := Station([], false, Free)]
      ensures Seen() == old(Seen()).(stations := stations)
    {
      hide Budget.Valid, Sane;
      ghost var w := Seen();
      scratch := new Scratch();
      stations := stations[scratch := Station([], false, Free)];
      Opens(w, scratch);
    }

    /** A read starts with a lease of nothing. */
    method Begin(home: Scratch) returns (lease: Lease)
      requires Valid() && home in stations
      modifies `readers, budget`leases
      ensures Valid() && fresh(lease) && readers == old(readers)[lease := Reader(home, Begun)]
    {
      hide Accounts, Charged, Controlled, Sane;
      ghost var w := Seen();
      lease := budget.Draw();
      assert budget.leases[|w.leases|] == lease;
      Enters(w, lease, home);
      readers := readers[lease := Reader(home, Begun)];
    }

    // -------------------------------------------------------------- reservations

    /** What a reader may count on. */
    lemma Reading(lease: Lease)
      requires Valid() && lease in readers
      ensures lease.Drawn() && lease.budget == budget && InStage(lease.AsRow(), readers[lease])
      ensures Seen().rows[lease.slot] == lease.AsRow() && Marked(blank, lease.AsRow(), readers[lease].stage)
    {
      hide Accounts, Charged, Controlled, InStage, Marked;
      assert ReaderOk(Seen(), lease, readers[lease]);
    }

    /** Reserves the prelude, within the allowance for all sessions. */
    method ReservePrelude(lease: Lease) returns (ok: bool)
      requires Valid() && At(lease, Begun)
      modifies `readers, lease, budget`controlBytes
      ensures Valid() && readers == AtStage(old(readers), lease, if ok then Prelude else Failed)
      ensures ok <==> old(budget.controlBytes) + PRELUDE <= budget.maxSessions * CONTROL_PER_SESSION
    {
      hide Budget.Valid, Sane;
      Reading(lease);
      ghost var w := Seen();
      ok := lease.ReserveControl();
      ghost var stage := if ok then Prelude else Failed;
      GoesOn(w, lease, lease.AsRow(), stage);
      readers := AtStage(readers, lease, stage);
    }

    /** Reserves what a frame needs at its peak, by its descriptors. */
    method Reserve(lease: Lease, tag: Byte, ds: seq<Descriptor>, limits: F.Limits) returns (ok: bool)
      requires Valid() && At(lease, Prelude) && ds != [] && F.Allowed(ds, limits)
      modifies `readers, lease, budget`bytes
      ensures Valid()
      ensures var plan := PlanOf(tag, ds);
              && readers == AtStage(old(readers), lease, if ok then Granted(plan) else Refused(plan))
              && (ok <==> old(budget.bytes) + plan.peak <= budget.maxBytes)
    {
      hide Budget.Valid, Sane, PlanOf;
      PlanCovers(tag, ds);
      var plan := PlanOf(tag, ds);
      Reading(lease);
      ghost var w := Seen();
      ok := lease.Resize(plan.peak);
      ghost var stage := if ok then Granted(plan) else Refused(plan);
      GoesOn(w, lease, lease.AsRow(), stage);
      readers := AtStage(readers, lease, stage);
    }

    /** Refused, it takes the lock of its scratch to give up what is idle there. */
    method StartDrop(lease: Lease)
      requires Valid() && lease in readers && readers[lease].stage.Refused?
      requires readers[lease].home in stations && stations[readers[lease].home].work == Free
      modifies `readers, `stations
      ensures Valid()
      ensures var home := old(readers)[lease].home;
              && readers == AtStage(old(readers), lease, Dropping(old(readers)[lease].stage.plan))
              && stations == old(stations)[home := old(stations)[home].(work := Emptying(lease))]
    {
      hide Budget.Valid, Sane;
      Reading(lease);
      ghost var w, home := Seen(), readers[lease].home;
      readers := AtStage(readers, lease, Dropping(readers[lease].stage.plan));
      stations := stations[home := stations[home].(work := Emptying(lease))];
      Turns(w, home, stations[home], readers);
    }

    /** What a scratch may count on. */
    lemma Stocked(s: Scratch)
      requires Valid() && s in stations
      ensures s.Valid(budget) && s.Clean() && |s.idle| <= budget.slots
    {
      hide Accounts, Charged, Controlled, WorkOk, ReaderOk;
      assert IdleOk(Seen(), s, stations[s].idle);
      forall i | 0 <= i < |s.idle| ensures s.Holds(budget, s.idle[i]) && s.idle[i].backing in blank {
        assert Seen().rows[s.idle[i].slot] == s.idle[i].AsRow();
      }
    }

    /** One idle lease is released; whatever comes free anybody may take. */
    method DropOne(s: Scratch)
      requires Valid() && s in stations && s.idle != [] && (stations[s].work.Emptying? || stations[s].work.Closing?)
      modifies `stations, s`idle, s.idle, budget`bytes, budget`controlBytes
      ensures Valid() && readers == old(readers) && s.idle == old(s.idle)[1..]
      ensures old(s.idle[0].backing) != null && budget.bytes == old(budget.bytes) - old(s.idle[0].backing).Length
      ensures stations == old(stations)[s := old(stations)[s].(idle := s.idle)]
    {
      hide Budget.Valid, Sane;
      Stocked(s);
      ghost var w := Seen();
      IdleGoes(w, s, 0);
      var backing := s.TakeAt(budget, 0);
      stations := stations[s := stations[s].(idle := s.idle)];
    }

    /** Nothing is idle any more; the lock is given up and the reservation tried again. */
    method EndDrop(lease: Lease)
      requires Valid() && lease in readers && readers[lease].stage.Dropping?
      requires var home := readers[lease].home;
               home in stations && stations[home].work == Emptying(lease) && stations[home].idle == []
      modifies `readers, `stations
      ensures Valid()
      ensures var home := old(readers)[lease].home;
              && readers == AtStage(old(readers), lease, Retrying(old(readers)[lease].stage.plan))
              && stations == old(stations)[home := old(stations)[home].(work := Free)]
    {
      hide Budget.Valid, Sane;
      Reading(lease);
      ghost var w, home := Seen(), readers[lease].home;
      readers := AtStage(readers, lease, Retrying(readers[lease].stage.plan));
      stations := stations[home := stations[home].(work := Free)];
      Turns(w, home, stations[home], readers);
    }

    method Retry(lease: Lease, plan: Plan) returns (ok: bool)
      requires Valid() && At(lease, Retrying(plan))
      modifies `readers, lease, budget`bytes
      ensures Valid() && readers == AtStage(old(readers), lease, if ok then Granted(plan) else Failed)
      ensures ok <==> old(budget.bytes) + plan.peak <= budget.maxBytes
    {
      hide Budget.Valid, Sane;
      Reading(lease);
      ghost var w := Seen();
      ok := lease.Resize(plan.peak);
      ghost var stage := if ok then Granted(plan) else Failed;
      GoesOn(w, lease, lease.AsRow(), stage);
      readers := AtStage(readers, lease, stage);
    }

    /** The prelude is charged as part of the frame now, or the frame is all in the prelude. */
    method PassPrelude(lease: Lease, plan: Plan)
      requires Valid() && At(lease, Granted(plan))
      modifies `readers, lease, budget`controlBytes
      ensures Valid() && readers == AtStage(old(readers), lease, Ready(plan))
    {
      hide Budget.Valid, Sane;
      Reading(lease);
      ghost var w := Seen();
      if !plan.control { lease.ReleaseControl(); }
      assert budget.Rows() == w.rows[lease.slot := lease.AsRow()];
      GoesOn(w, lease, lease.AsRow(), Ready(plan));
      readers := AtStage(readers, lease, Ready(plan));
    }

    // -------------------------------------------------------------- buffers

    /** A buffer in use is nobody else's: no other reader's, none that waits and none in hand. */
    lemma OneHolder(lease: Lease)
      requires Valid() && lease in readers && lease.backing != null
      ensures forall l :: l in readers && l != lease ==> l.backing != lease.backing
      ensures forall s, i :: s in stations && 0 <= i < |s.idle| ==> s.idle[i].backing != lease.backing
      ensures forall s :: s in stations ==> Hand(stations[s]) != lease.backing
    {
      hide Accounts, Charged, Controlled, Sane, IdleOk, InStage;
      Reading(lease);
      InUse(lease.AsRow(), readers[lease]);
      UniqueRows(budget);
      ghost var w := Seen();
      forall l | l in readers && l != lease ensures l.backing != lease.backing {
        Reading(l);
      }
      forall s, i | s in stations && 0 <= i < |s.idle| ensures s.idle[i].backing != lease.backing {
        Stocked(s);
        s.NotShared(lease);
      }
      forall s | s in stations && Hand(stations[s]) != null ensures Hand(stations[s]) != lease.backing {
        HandFree(w, s);
      }
    }

    ghost predicate Is(l: Lease, home: Scratch, stage: Stage)
      reads `readers, `stations
    {
      l in readers && readers[l] == Reader(home, stage) && home in stations
    }

    /** First half of a get, under the scratch's lock: the top idle lease is released, and its
        buffer kept in hand if it is large enough. */
    method StartGet(lease: Lease, home: Scratch, plan: Plan) returns (hand: array?<int>)
      requires Valid() && Is(lease, home, Ready(plan)) && Scratchable(plan.size) && stations[home].work == Free
      modifies `readers, `stations, home`idle, home.idle, budget`bytes, budget`controlBytes
      ensures Valid() && readers == AtStage(old(readers), lease, Asking(plan))
      ensures stations == old(stations)[home := Station(home.idle, home.closed, Getting(lease, hand))]
      ensures old(home.idle) == [] ==> home.idle == [] && hand == null && budget.bytes == old(budget.bytes)
      ensures old(home.idle) != [] ==>
                var top := old(home.idle[|home.idle| - 1].backing);
                && home.idle == old(home.idle[..|home.idle| - 1])
                && top != null && budget.bytes == old(budget.bytes) - top.Length
                && hand == if top.Length >= plan.size then top else null
    {
      hide Valid, Sane;
      hand := null;
      Mirror(home);
      if home.idle != [] {
        var backing := Pop(home);
        if backing.Length >= plan.size { hand := backing; }
      }
      Take(lease, home, plan, hand);
    }

    lemma Mirror(home: Scratch)
      requires Valid() && home in stations
      ensures stations[home].idle == home.idle && stations[home].closed == home.closed
    {
      hide Budget.Valid, Sane;
    }

    /** The lock is held for a reader that has this buffer in hand, or none. */
    method Take(lease: Lease, home: Scratch, plan: Plan, hand: array?<int>)
      requires Valid() && Is(lease, home, Ready(plan)) && stations[home].work == Free
      requires hand != null ==> plan.size <= hand.Length && hand in blank && Unheld(budget.Rows(), hand)
      requires hand != null ==> forall t :: t in stations ==> Hand(stations[t]) != hand
      modifies `readers, `stations
      ensures Valid() && readers == AtStage(old(readers), lease, Asking(plan))
      ensures stations == old(stations)[home := old(stations)[home].(work := Getting(lease, hand))]
    {
      hide Budget.Valid, Sane;
      Asks(lease, home, plan, hand);
      readers := AtStage(readers, lease, Asking(plan));
      stations := stations[home := stations[home].(work := Getting(lease, hand))];
    }

    /** The top idle lease is released; nobody holds its buffer then. */
    method Pop(home: Scratch) returns (backing: array<int>)
      requires Valid() && home in stations && home.idle != [] && stations[home].work == Free
      modifies `stations, home`idle, home.idle, budget`bytes, budget`controlBytes
      ensures Valid() && home.idle == old(home.idle[..|home.idle| - 1])
      ensures budget.bytes == old(budget.bytes) - backing.Length
      ensures stations == old(stations)[home := Station(home.idle, home.closed, Free)]
      ensures backing == old(home.idle[|home.idle| - 1].backing) && backing in blank && Unheld(budget.Rows(), backing)
      ensures forall t :: t in stations ==> Hand(stations[t]) != backing
    {
      hide Budget.Valid, Sane;
      Stocked(home);
      ghost var w := Seen();
      var top := |home.idle| - 1;
      IdleGoes(w, home, top);
      NotInHand(w, home, top);
      backing := home.TakeAt(budget, top);
      stations := stations[home := stations[home].(idle := home.idle)];
    }

    lemma Asks(lease: Lease, home: Scratch, plan: Plan, hand: array?<int>)
      requires Valid() && Is(lease, home, Ready(plan)) && stations[home].work == Free
      requires hand != null ==> plan.size <= hand.Length && hand in blank && Unheld(budget.Rows(), hand)
      requires hand != null ==> forall t :: t in stations ==> Hand(stations[t]) != hand
      ensures Sane(Seen().(stations := stations[home := stations[home].(work := Getting(lease, hand))],
                           readers := AtStage(readers, lease, Asking(plan))))
    {
      hide Budget.Valid, Sane;
      Reading(lease);
      Turns(Seen(), home, stations[home].(work := Getting(lease, hand)), AtStage(readers, lease, Asking(plan)));
    }

    /** Second half: the charge grows by what the buffer has beyond the plan, if that fits by now;
        otherwise the reader gets a buffer of its own that will not be reused. */
    method FinishGet(lease: Lease, home: Scratch, plan: Plan, hand: array?<int>) returns (buffer: array<int>)
      requires Valid() && Is(lease, home, Asking(plan)) && stations[home].work == Getting(lease, hand)
      modifies `readers, `stations, `blank, lease, budget`bytes
      ensures Valid() && readers == AtStage(old(readers), lease, Filled(plan))
      ensures stations == old(stations)[home := old(stations)[home].(work := Free)]
      ensures var capacity := if hand != null then hand.Length else RoundedUp(plan.size);
              && (lease.backing != null <==> old(budget.bytes) + capacity - plan.size <= budget.maxBytes)
              && buffer.Length == (if lease.backing != null then capacity else plan.size)
      ensures Zeroed(buffer) && buffer !in blank && (lease.backing != null ==> lease.backing == buffer)
      ensures fresh(buffer) || buffer == hand
    {
      hide Budget.Valid, Sane, RoundedUp, Zeroed, AllBlank, Mirrored;
      HandLong(lease, home);
      var capacity := if hand != null then hand.Length else RoundedUp(plan.size);
      buffer := Serve(lease, home, plan, capacity, hand);
      Unlock(lease, home, plan);
    }

    ghost method Unlock(lease: Lease, home: Scratch, plan: Plan)
      requires budget.Valid() && budget.sessions <= budget.maxSessions && Mirrored() && AllBlank(blank)
      requires Is(lease, home, Asking(plan)) && Sane(Unlocked(Seen(), lease, lease.backing))
      modifies `readers, `stations, `blank
      ensures Valid() && readers == AtStage(old(readers), lease, Filled(plan))
      ensures stations == old(stations)[home := old(stations)[home].(work := Free)]
      ensures blank == if lease.backing == null then old(blank) else old(blank) - {lease.backing}
    {
      hide Budget.Valid, Sane, AllBlank;
      readers := AtStage(readers, lease, Filled(plan));
      stations := stations[home := stations[home].(work := Free)];
      if lease.backing != null { blank := blank - {lease.backing}; }
      StillBlank(old(blank), blank);
    }

    /** The charge and the buffer of the second half. */
    method Serve(lease: Lease, home: Scratch, plan: Plan, capacity: nat, hand: array?<int>) returns (buffer: array<int>)
      requires Valid() && Is(lease, home, Asking(plan)) && stations[home].work == Getting(lease, hand)
      requires plan.size <= capacity && (hand != null ==> capacity == hand.Length)
      modifies lease, budget`bytes
      ensures budget.Valid() && budget.leases == old(budget.leases)
      ensures lease.backing != null <==> old(budget.bytes) + capacity - plan.size <= budget.maxBytes
      ensures Zeroed(buffer) && buffer.Length == if lease.backing != null then capacity else plan.size
      ensures fresh(buffer) || (buffer == hand && lease.backing != null)
      ensures lease.backing != null ==> lease.backing == buffer
      ensures Sane(Unlocked(Seen(), lease, lease.backing))
    {
      hide Budget.Valid, Sane, InStage, Marked, Zeroed, Unheld, Scratch.Valid, Scratch.Clean;
      Stocked(home);
      Reading(lease);
      HandFacts(lease, home);
      AskingRow(lease.AsRow(), home, plan);
      ghost var w := Seen();
      buffer := home.Supply(lease, plan.size, capacity, hand);
      FilledRow(lease.AsRow(), home, plan);
      Gets(w, lease, lease.AsRow());
    }

    /** A size that scratches do not keep: the reader gets a buffer of its own. */
    method GetPlain(lease: Lease, home: Scratch, plan: Plan) returns (buffer: array<int>)
      requires Valid() && Is(lease, home, Ready(plan)) && !Scratchable(plan.size)
      modifies `readers
      ensures Valid() && readers == AtStage(old(readers), lease, Filled(plan))
      ensures fresh(buffer) && buffer.Length == plan.size && Zeroed(buffer)
    {
      hide Budget.Valid, Sane, Zeroed;
      Reading(lease);
      ghost var w := Seen();
      buffer := Make(plan.size);
      assert w.rows[lease.slot := lease.AsRow()] == w.rows;
      GoesOn(w, lease, lease.AsRow(), Filled(plan));
      readers := AtStage(readers, lease, Filled(plan));
    }

    /** Received bytes go into the buffer; no clear buffer is touched. */
    method Fill(lease: Lease, home: Scratch, plan: Plan, data: seq<int>)
      requires Valid() && (Is(lease, home, Filled(plan)) || Is(lease, home, Kept(plan)))
      requires lease.backing != null && |data| <= lease.backing.Length
      modifies lease.backing
      ensures Valid() && lease.backing[..|data|] == data
    {
      hide Budget.Valid, Sane;
      Reading(lease);
      var k := 0;
      while k < |data|
        invariant k <= |data| && lease.backing[..k] == data[..k]
      {
        lease.backing[k] := data[k];
        k := k + 1;
      }
    }

    /** The frame is read: the charge goes down to what it holds. This cannot fail, whatever
        others did since the peak was granted. */
    method Settle(lease: Lease, home: Scratch, plan: Plan) returns (ok: bool)
      requires Valid() && (Is(lease, home, Filled(plan)) || (Is(lease, home, Ready(plan)) && plan.size == 0))
      modifies `readers, lease, budget`bytes
      ensures ok && Valid() && readers == AtStage(old(readers), lease, Kept(plan))
      ensures lease.bytes == plan.retained + lease.extra <= old(lease.bytes)
      ensures budget.bytes == old(budget.bytes) - old(lease.bytes) + lease.bytes
    {
      hide Budget.Valid, Sane;
      Reading(lease);
      BytesBounded(lease);
      ghost var w := Seen();
      ok := lease.Resize(plan.retained);
      GoesOn(w, lease, lease.AsRow(), Kept(plan));
      readers := AtStage(readers, lease, Kept(plan));
    }

    /** A control frame that is copied is charged for the copies as well. */
    method Grow(lease: Lease, home: Scratch, plan: Plan, copies: nat) returns (ok: bool)
      requires Valid() && Is(lease, home, Kept(plan))
      modifies `readers, lease, budget`bytes
      ensures Valid() && readers == AtStage(old(readers), lease, if ok then Kept(plan) else Failed)
      ensures ok <==> old(budget.bytes) + copies + lease.extra <= budget.maxBytes
      ensures lease.extra == old(lease.extra)
      ensures lease.bytes == if ok then old(lease.bytes) + copies + lease.extra else old(lease.bytes)
      ensures budget.bytes == old(budget.bytes) - old(lease.bytes) + lease.bytes
    {
      hide Budget.Valid, Sane;
      Reading(lease);
      ghost var w := Seen();
      RowOf(lease);
      BytesBounded(lease);
      ok := lease.Resize(lease.bytes + copies);
      ghost var stage := if ok then Kept(plan) else Failed;
      GoesOn(w, lease, lease.AsRow(), stage);
      readers := AtStage(readers, lease, stage);
    }

    /** Reading fails at some point before the frame is complete. */
    method Fail(lease: Lease)
      requires Valid() && lease in readers && Loose(readers[lease].stage) && !readers[lease].stage.Wiped?
      requires !readers[lease].stage.Gone?
      modifies `readers
      ensures Valid() && readers == AtStage(old(readers), lease, Failed)
    {
      hide Budget.Valid, Sane;
      Reading(lease);
      ghost var w := Seen();
      assert w.rows[lease.slot := lease.AsRow()] == w.rows;
      GoesOn(w, lease, lease.AsRow(), Failed);
      readers := AtStage(readers, lease, Failed);
    }

    // -------------------------------------------------------------- the end of a lease

    /** A lease is released, and a buffer it holds is not reused. Releasing twice changes nothing. */
    method Release(lease: Lease)
      requires Valid() && lease in readers
      requires readers[lease].stage.Kept? || readers[lease].stage.Failed? || readers[lease].stage.Gone?
      modifies `readers, lease, budget`bytes, budget`controlBytes
      ensures Valid() && readers == AtStage(old(readers), lease, Gone) && lease.AsRow() == EMPTY
      ensures budget.bytes == old(budget.bytes) - old(lease.bytes)
    {
      hide Budget.Valid, Sane;
      Reading(lease);
      ghost var w := Seen();
      lease.Release();
      GoesOn(w, lease, EMPTY, Gone);
      readers := AtStage(readers, lease, Gone);
    }

    /** On its way back a buffer is cleared, before any lock is taken. */
    method Wipe(lease: Lease)
      requires Valid() && lease in readers && (readers[lease].stage.Kept? || readers[lease].stage.Failed?)
      requires lease.scratch != null && lease.backing != null
      modifies `readers, `blank, lease.backing
      ensures Valid() && readers == AtStage(old(readers), lease, Wiped) && Zeroed(lease.backing)
    {
      hide Accounts, Charged, Controlled, Sane;
      Reading(lease);
      ghost var w := Seen();
      lease.scratch.Clear(lease.backing);
      UniqueRows(budget);
      Wipes(w, lease);
      blank := blank + {lease.backing};
      readers := AtStage(readers, lease, Wiped);
    }

    /** Under the scratch's lock: the lease is over when the scratch is closed or full; otherwise
        its prelude, if it still has one, is given back, and the buffer comes next. */
    method PutBack(lease: Lease, home: Scratch) returns (parking: bool)
      requires Valid() && Is(lease, home, Wiped) && stations[home].work == Free
      modifies `readers, `stations, lease, budget`bytes, budget`controlBytes
      ensures Valid() && (parking <==> !home.closed && |home.idle| < budget.slots)
      ensures budget.bytes == if parking then old(budget.bytes) else old(budget.bytes) - old(lease.bytes)
      ensures readers == AtStage(old(readers), lease, if parking then Parking else Gone)
      ensures stations == if parking then old(stations)[home := old(stations)[home].(work := Putting(lease))]
              else old(stations)
    {
      hide Budget.Valid, Sane;
      Reading(lease);
      Mirror(home);
      parking := !home.closed && |home.idle| < budget.slots;
      if !parking {
        ghost var w := Seen();
        lease.Release();
        GoesOn(w, lease, EMPTY, Gone);
        readers := AtStage(readers, lease, Gone);
        return;
      }
      DropPrelude(lease, home);
      StartPut(lease, home);
    }

    method DropPrelude(lease: Lease, home: Scratch)
      requires Valid() && Is(lease, home, Wiped)
      modifies lease, budget`controlBytes
      ensures Valid() && lease.controlBytes == 0
    {
      hide Budget.Valid, Sane;
      Reading(lease);
      ghost var w := Seen();
      lease.ReleaseControl();
      GoesOn(w, lease, lease.AsRow(), Wiped);
      assert AtStage(readers, lease, Wiped) == readers;
    }

    method StartPut(lease: Lease, home: Scratch)
      requires Valid() && Is(lease, home, Wiped) && stations[home].work == Free && lease.controlBytes == 0
      requires !home.closed && |home.idle| < budget.slots
      modifies `readers, `stations
      ensures Valid() && readers == AtStage(old(readers), lease, Parking)
      ensures stations == old(stations)[home := old(stations)[home].(work := Putting(lease))]
    {
      hide Budget.Valid, Sane;
      Reading(lease);
      ghost var w := Seen();
      readers := AtStage(readers, lease, Parking);
      stations := stations[home := stations[home].(work := Putting(lease))];
      Turns(w, home, stations[home], readers);
    }

    /** The buffer goes over to a lease that is parked, which is charged for just its size. */
    method Park(lease: Lease, home: Scratch)
      requires Valid() && Is(lease, home, Parking) && stations[home].work == Putting(lease)
      modifies `readers, `stations, home`idle, lease, budget`bytes, budget`leases
      ensures Valid() && readers == AtStage(old(readers), lease, Gone)
      ensures |home.idle| == |old(home.idle)| + 1 && home.idle[..|old(home.idle)|] == old(home.idle)
      ensures home.idle[|old(home.idle)|].backing == old(lease.backing) && old(lease.backing) != null
      ensures budget.bytes == old(budget.bytes) - old(lease.bytes) + old(lease.backing).Length <= old(budget.bytes)
      ensures stations == old(stations)[home := Station(home.idle, home.closed, Free)]
    {
      hide Accounts, Charged, Controlled, Sane, InStage, Marked;
      Reading(lease);
      Mirror(home);
      ghost var w := Seen();
      ParkingRow(lease.AsRow(), home);
      var entry := home.HandOver(lease);
      Parks(w, lease, entry);
      home.idle := home.idle + [entry];
      readers := AtStage(readers, lease, Gone);
      stations := stations[home := Station(home.idle, home.closed, Free)];
      assert budget.Rows() == Put(w, lease, entry).rows;
    }

    /** A transport closes: it takes the lock of its scratch, and nothing is parked there again. */
    method StartClose(s: Scratch)
      requires Valid() && s in stations && stations[s].work == Free
      modifies `stations, s`closed
      ensures Valid() && s.closed && readers == old(readers)
      ensures stations == old(stations)[s := Station(s.idle, true, Closing)]
    {
      hide Budget.Valid, Sane;
      Mirror(s);
      ghost var w := Seen();
      s.closed := true;
      stations := stations[s := Station(s.idle, true, Closing)];
      Turns(w, s, stations[s], readers);
    }

    method EndClose(s: Scratch)
      requires Valid() && s in stations && stations[s].work == Closing && s.idle == []
      modifies `stations
      ensures Valid() && s.closed && stations == old(stations)[s := Station([], true, Free)]
    {
      hide Budget.Valid, Sane;
      Mirror(s);
      ghost var w := Seen();
      ClosingIsClosed(w, s);
      stations := stations[s := Station([], true, Free)];
      Turns(w, s, stations[s], readers);
    }

    lemma HandLong(lease: Lease, home: Scratch)
      requires Valid() && home in stations && stations[home].work.Getting? && stations[home].work.lease == lease
      requires lease in readers && readers[lease].stage.Asking?
      ensures var hand := stations[home].work.hand; hand != null ==> readers[lease].stage.plan.size <= hand.Length
    {
      hide Budget.Valid, Sane;
      HandFacts(lease, home);
    }

    lemma HandFacts(lease: Lease, home: Scratch)
      requires Valid() && home in stations && stations[home].work.Getting? && stations[home].work.lease == lease
      requires lease in readers && readers[lease].stage.Asking?
      ensures var hand := Hand(stations[home]);
              hand != null ==>
                && readers[lease].stage.plan.size <= hand.Length && Zeroed(hand) && Unheld(budget.Rows(), hand)
                && forall t :: t in stations && t != home ==> Hand(stations[t]) != hand
    {
      hide Budget.Valid, IdleOk, ReaderOk;
      assert WorkOk(Seen(), home, stations[home]);
    }
  }

  lemma UniqueRows(budget: Budget)
    requires budget.Valid()
    ensures Unique(budget.Rows())
  {
  }

  /** A lease is charged at least for the buffer it holds. */
  lemma RowOf(lease: Lease)
    requires lease.Drawn()
    ensures lease.backing != null ==> lease.backing.Length <= lease.bytes
  {
    assert lease.budget.Rows()[lease.slot] == lease.AsRow();
  }

  lemma InUse(row: Row, r: Reader)
    requires InStage(row, r)
    ensures row.parked == null
  {
  }

  lemma HandFree(w: World, s: Scratch)
    requires Sane(w) && s in w.stations && Hand(w.stations[s]) != null
    ensures Unheld(w.rows, Hand(w.stations[s]))
  {
    assert WorkOk(w, s, w.stations[s]);
  }

  lemma ParkingRow(row: Row, home: Scratch)
    requires InStage(row, Reader(home, Parking))
    ensures row.backing != null && row.control == 0 && row.parked == null
  {
  }

  lemma ClosingIsClosed(w: World, s: Scratch)
    requires Sane(w) && s in w.stations && w.stations[s].work == Closing
    ensures w.stations[s].closed
  {
    assert WorkOk(w, s, w.stations[s]);
  }

  lemma AskingRow(row: Row, home: Scratch, plan: Plan)
    requires InStage(row, Reader(home, Asking(plan)))
    ensures row == EMPTY.(bytes := plan.peak, control := Fixed(plan)) && Sensible(plan)
  {
  }

  lemma FilledRow(row: Row, home: Scratch, plan: Plan)
    requires Sensible(plan) && row.parked == null && row.control == Fixed(plan) && row.bytes == plan.peak + row.extra
    requires if row.backing == null then row.extra == 0 && row.scratch == null
             else row.scratch == home && row.backing.Length == plan.size + row.extra
    ensures InStage(row, Reader(home, Filled(plan)))
  {
  }

  /** The buffer of an idle lease is in nobody's hand. */
  lemma NotInHand(w: World, s: Scratch, i: nat)
    requires Sane(w) && s in w.stations && i < |w.stations[s].idle| && Known(w, w.stations[s].idle[i])
    ensures forall t :: t in w.stations ==> Hand(w.stations[t]) == null
                                            || Hand(w.stations[t]) != w.rows[w.stations[s].idle[i].slot].backing
  {
    forall t | t in w.stations && Hand(w.stations[t]) != null
      ensures Hand(w.stations[t]) != w.rows[w.stations[s].idle[i].slot].backing
    {
      assert WorkOk(w, t, w.stations[t]);
    }
  }
}
