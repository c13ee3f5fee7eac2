/** The byte budget of received frames: leases that are charged for what they hold, and
    scratch buffers that go from one lease to the next. */
module ReceiveBudget {
  import opened Common
  import SecureFrame

  const PRELUDE := SecureFrame.PRELUDE
  const CONTROL_PER_SESSION := 3 * PRELUDE
  const MIN_SCRATCH := 0x1000
  const MAX_SCRATCH := 0x2_0000
  const SCRATCH_BLOCK := 0x2000

  // ---------------------------------------------------------------- accounts

  /** What one lease is charged for and holds. A parked lease waits in a scratch for reuse. */
  datatype Row = Row(bytes: nat, control: nat, extra: nat, backing: array?<int>, scratch: Scratch?, parked: Scratch?)

  const EMPTY := Row(0, 0, 0, null, null, null)

  function Charged(rows: seq<Row>): (sum: nat) {
    if rows == [] then 0 else Charged(rows[..|rows| - 1]) + rows[|rows| - 1].bytes
  }

  function Controlled(rows: seq<Row>): (sum: nat) {
    if rows == [] then 0 else Controlled(rows[..|rows| - 1]) + rows[|rows| - 1].control
  }

  /** A lease is charged at least for the whole buffer it holds. */
  ghost predicate Covered(rows: seq<Row>) {
    forall i :: 0 <= i < |rows| && rows[i].backing != null ==> rows[i].backing.Length <= rows[i].bytes
  }

  /** No buffer is held by two leases. */
  ghost predicate Unique(rows: seq<Row>) {
    forall i, j :: 0 <= i < j < |rows| && rows[i].backing != null ==> rows[i].backing != rows[j].backing
  }

  ghost predicate Unheld(rows: seq<Row>, backing: array<int>) {
    forall i :: 0 <= i < |rows| ==> rows[i].backing != backing
  }

  /** A parked lease holds a buffer and is charged for exactly that. */
  ghost predicate Parked(rows: seq<Row>) {
    forall i :: 0 <= i < |rows| && rows[i].parked != null ==> ParkedRow(rows[i])
  }

  ghost predicate ParkedRow(row: Row) {
    row.backing != null && row.bytes == row.backing.Length && row.control == 0 && row.extra == 0 && row.scratch == null
  }

  /** A lease that will return its buffer to a scratch holds one. */
  ghost predicate Lent(rows: seq<Row>) {
    forall i :: 0 <= i < |rows| && rows[i].scratch != null ==> rows[i].backing != null
  }

  ghost predicate Accounts(rows: seq<Row>) { Covered(rows) && Unique(rows) && Parked(rows) && Lent(rows) }

  lemma {:induction false} ChargedAt(rows: seq<Row>, i: nat, row: Row)
    requires i < |rows|
    ensures Charged(rows[i := row]) == Charged(rows) - rows[i].bytes + row.bytes
    ensures Controlled(rows[i := row]) == Controlled(rows) - rows[i].control + row.control
    ensures rows[i].bytes <= Charged(rows) && rows[i].control <= Controlled(rows)
  {
    var n := |rows| - 1;
    if i < n {
      ChargedAt(rows[..n], i, row);
      assert rows[i := row][..n] == rows[..n][i := row];
    } else {
      assert rows[i := row][..n] == rows[..n];
    }
  }

  lemma ChargedMore(rows: seq<Row>, row: Row)
    ensures Charged(rows + [row]) == Charged(rows) + row.bytes
            && Controlled(rows + [row]) == Controlled(rows) + row.control
  {
    assert (rows + [row])[..|rows|] == rows;
  }

  /** A lease may change hands with its buffer, drop it, or take one that nobody holds. */
  lemma AccountsAt(rows: seq<Row>, i: nat, row: Row)
    requires i < |rows| && Accounts(rows)
    requires row.backing == null || row.backing == rows[i].backing || Unheld(rows, row.backing)
    requires row.backing != null ==> row.backing.Length <= row.bytes
    requires row.parked != null ==> ParkedRow(row)
    requires row.scratch != null ==> row.backing != null
    ensures Accounts(rows[i := row])
  {
    var after := rows[i := row];
    forall a, b | 0 <= a < b < |after| && after[a].backing != null ensures after[a].backing != after[b].backing {
      assert a != i ==> after[a] == rows[a];
      assert b != i ==> after[b] == rows[b];
    }
  }

  lemma AccountsMore(rows: seq<Row>, row: Row)
    requires Accounts(rows)
    requires row.backing == null || Unheld(rows, row.backing)
    requires row.backing != null ==> row.backing.Length <= row.bytes
    requires row.parked != null ==> ParkedRow(row)
    requires row.scratch != null ==> row.backing != null
    ensures Accounts(rows + [row])
  {
    var after := rows + [row];
    forall a, b | 0 <= a < b < |after| && after[a].backing != null ensures after[a].backing != after[b].backing {
      assert after[a] == rows[a];
      assert b < |rows| ==> after[b] == rows[b];
    }
  }

  // ---------------------------------------------------------------- the budget and its leases

  class Budget {
    const maxSessions: nat
    const maxBytes: nat
    var sessions: nat
    var bytes: nat
    var controlBytes: nat
    var slots: nat
    /** Every lease ever drawn on this budget; a released one is charged nothing. */
    ghost var leases: seq<Lease>

    constructor (maxSessions: nat, maxBytes: nat)
      requires 0 < maxSessions <= MAX_UINT64 / CONTROL_PER_SESSION && 0 < maxBytes <= MAX_UINT64
      ensures Valid() && leases == [] && bytes == 0 && sessions == 0
      ensures this.maxSessions == maxSessions && this.maxBytes == maxBytes
    {
      this.maxSessions, this.maxBytes := maxSessions, maxBytes;
      sessions, bytes, controlBytes, slots, leases := 0, 0, 0, 4, [];
    }

    ghost function Rows(): (rows: seq<Row>)
      reads `leases, leases
      ensures |rows| == |leases|
    {
      var all := leases;
      seq(|all|, i requires 0 <= i < |all| reads all => all[i].AsRow())
    }

    ghost predicate Listed()
      reads `leases, leases
    {
      forall i :: 0 <= i < |leases| ==> leases[i].slot == i && leases[i].budget == this
    }

    /** The charge is the sum over all leases, idle ones included, and never over the limit. */
    ghost predicate Valid()
      reads `leases, `bytes, `controlBytes, leases
    {
      && Listed() && Accounts(Rows()) && maxBytes <= MAX_UINT64
      && bytes == Charged(Rows()) <= maxBytes && controlBytes == Controlled(Rows()) <= maxSessions * CONTROL_PER_SESSION
    }

    method Admit() returns (ok: bool)
      requires sessions <= maxSessions
      modifies `sessions
      ensures sessions <= maxSessions && ok == (old(sessions) < maxSessions)
      ensures sessions == if ok then old(sessions) + 1 else old(sessions)
    {
      if sessions >= maxSessions { return false; }
      sessions := sessions + 1;
      return true;
    }

    method Retire()
      requires 0 < sessions <= maxSessions
      modifies `sessions
      ensures sessions == old(sessions) - 1
    {
      sessions := sessions - 1;
    }

    /** A lease of nothing yet. */
    method Draw() returns (lease: Lease)
      requires Valid()
      modifies `leases
      ensures Valid() && fresh(lease) && leases == old(leases) + [lease] && Rows() == old(Rows()) + [EMPTY]
    {
      hide Accounts, Charged, Controlled;
      ghost var rows := Rows();
      lease := new Lease(this, |leases|);
      leases := leases + [lease];
      ChargedMore(rows, EMPTY);
      AccountsMore(rows, EMPTY);
      assert Rows() == rows + [EMPTY];
    }
  }

  /** A budget, or nothing when its limits make no sense. */
  method NewBudget(maxSessions: int, maxBytes: nat) returns (budget: Budget?)
    requires maxSessions <= MAX_UINT64 && maxBytes <= MAX_UINT64
    ensures budget != null <==> 0 < maxSessions <= MAX_UINT64 / CONTROL_PER_SESSION && maxBytes > 0
    ensures budget != null ==>
              fresh(budget) && budget.Valid() && budget.maxSessions == maxSessions && budget.maxBytes == maxBytes
  {
    if maxSessions <= 0 || maxSessions > MAX_UINT64 / CONTROL_PER_SESSION || maxBytes == 0 { return null; }
    budget := new Budget(maxSessions, maxBytes);
  }

  class Lease {
    const budget: Budget
    ghost const slot: nat
    var bytes: nat
    var controlBytes: nat
    var extra: nat
    var backing: array?<int>
    var scratch: Scratch?
    /** The scratch this lease is parked in, when it is idle. */
    ghost var parked: Scratch?

    constructor (budget: Budget, ghost slot: nat)
      ensures this.budget == budget && this.slot == slot && AsRow() == EMPTY
    {
      this.budget, this.slot := budget, slot;
      bytes, controlBytes, extra, backing, scratch, parked := 0, 0, 0, null, null, null;
    }

    ghost function AsRow(): Row
      reads this
    {
      Row(bytes, controlBytes, extra, backing, scratch, parked)
    }

    /** The lease is on the books of its budget, whose accounts balance. */
    ghost predicate Drawn()
      reads this, budget, budget.leases
    {
      budget.Valid() && slot < |budget.leases| && budget.leases[slot] == this
    }

    ghost predicate Booked(rows: seq<Row>, row: Row)
      reads this, budget, budget.leases
    {
      && Drawn() && slot < |rows| && budget.Rows() == rows[slot := row] && AsRow() == row
    }

    /** After this lease changed to `row` and the totals followed, everything balances again. */
    lemma Rebalanced(rows: seq<Row>, row: Row)
      requires budget.Listed() && slot < |budget.leases| && budget.leases[slot] == this && |rows| == |budget.leases|
      requires forall i :: 0 <= i < |rows| && i != slot ==> budget.leases[i].AsRow() == rows[i]
      requires AsRow() == row && Accounts(rows[slot := row]) && budget.maxBytes <= MAX_UINT64
      requires budget.bytes == Charged(rows) - rows[slot].bytes + row.bytes <= budget.maxBytes
      requires budget.controlBytes == Controlled(rows) - rows[slot].control
               + row.control <= budget.maxSessions * CONTROL_PER_SESSION
      ensures Booked(rows, row)
    {
      hide Accounts, Charged, Controlled;
      ChargedAt(rows, slot, row);
      assert budget.Rows() == rows[slot := row];
    }

    /** Charges the lease for `wanted` bytes and what its buffer has beyond them, if that fits. */
    method Resize(wanted: nat) returns (ok: bool)
      requires Drawn() && parked == null
      requires backing != null ==> backing.Length <= wanted + extra
      modifies `bytes, budget`bytes
      ensures ok <==> wanted + extra <= MAX_UINT64 && old(budget.bytes) - old(bytes) + wanted + extra <= budget.maxBytes
      ensures Booked(old(budget.Rows()), if ok then old(AsRow()).(bytes := wanted + extra) else old(AsRow()))
      ensures budget.bytes == old(budget.bytes) - old(bytes) + bytes
    {
      hide Accounts, Charged, Controlled;
      ghost var rows := budget.Rows();
      assert rows[slot] == AsRow();
      ChargedAt(rows, slot, AsRow());
      assert rows[slot := AsRow()] == rows;
      if wanted > MAX_UINT64 - extra { return false; }
      var total := wanted + extra;
      if total > bytes && total - bytes > budget.maxBytes - budget.bytes { return false; }
      budget.bytes := budget.bytes - bytes + total;
      bytes := total;
      RowFacts(rows, slot);
      AccountsAt(rows, slot, AsRow());
      Rebalanced(rows, AsRow());
      return true;
    }

    method ReserveControl() returns (ok: bool)
      requires Drawn() && parked == null && controlBytes == 0
      modifies `controlBytes, budget`controlBytes
      ensures ok <==> old(budget.controlBytes) + PRELUDE <= budget.maxSessions * CONTROL_PER_SESSION
      ensures Booked(old(budget.Rows()), if ok then old(AsRow()).(control := PRELUDE) else old(AsRow()))
    {
      hide Accounts, Charged, Controlled;
      ghost var rows := budget.Rows();
      assert rows[slot] == AsRow();
      ChargedAt(rows, slot, AsRow());
      assert rows[slot := AsRow()] == rows;
      if PRELUDE > budget.maxSessions * CONTROL_PER_SESSION - budget.controlBytes { return false; }
      budget.controlBytes := budget.controlBytes + PRELUDE;
      controlBytes := PRELUDE;
      RowFacts(rows, slot);
      AccountsAt(rows, slot, AsRow());
      Rebalanced(rows, AsRow());
      return true;
    }

    method ReleaseControl()
      requires Drawn()
      modifies `controlBytes, budget`controlBytes
      ensures Booked(old(budget.Rows()), old(AsRow()).(control := 0))
    {
      hide Accounts, Charged, Controlled;
      ghost var rows := budget.Rows();
      assert rows[slot] == AsRow();
      ChargedAt(rows, slot, AsRow());
      budget.controlBytes := budget.controlBytes - controlBytes;
      controlBytes := 0;
      RowFacts(rows, slot);
      AccountsAt(rows, slot, AsRow());
      Rebalanced(rows, AsRow());
    }

    method SetExtra(size: nat)
      requires Drawn() && parked == null && backing == null
      modifies `extra
      ensures Booked(old(budget.Rows()), old(AsRow()).(extra := size))
    {
      hide Accounts, Charged, Controlled;
      ghost var rows := budget.Rows();
      assert rows[slot] == AsRow();
      RowFacts(rows, slot);
      extra := size;
      AccountsAt(rows, slot, AsRow());
      Rebalanced(rows, AsRow());
    }

    method Hold(buffer: array<int>, from: Scratch)
      requires Drawn() && parked == null && Unheld(budget.Rows(), buffer) && buffer.Length <= bytes
      modifies `backing, `scratch
      ensures Booked(old(budget.Rows()), old(AsRow()).(backing := buffer, scratch := from))
    {
      hide Accounts, Charged, Controlled;
      ghost var rows := budget.Rows();
      assert rows[slot] == AsRow();
      backing, scratch := buffer, from;
      AccountsAt(rows, slot, AsRow());
      Rebalanced(rows, AsRow());
    }

    /** Charges the lease for a whole buffer of which it asked for `size` bytes, if that fits. */
    method ChargeBuffer(size: nat, capacity: nat, ghost spare: array?<int>) returns (ok: bool)
      requires Drawn() && parked == null && backing == null && extra == 0 && size <= capacity
      requires spare != null ==> Unheld(budget.Rows(), spare)
      modifies `extra, `bytes, budget`bytes
      ensures Booked(old(budget.Rows()), AsRow()) && budget.leases == old(budget.leases)
      ensures spare != null ==> Unheld(budget.Rows(), spare)
      ensures ok <==> old(budget.bytes) + capacity - size <= budget.maxBytes
      ensures AsRow() == if ok then old(AsRow()).(extra := capacity - size, bytes := old(bytes) + capacity - size)
              else old(AsRow())
    {
      hide Accounts, Charged, Controlled, Unheld;
      BytesBounded(this);
      ghost var rows := budget.Rows();
      SetExtra(capacity - size);
      ghost var next := budget.Rows();
      StaysUnheld(rows, slot, AsRow(), spare);
      ok := Resize(bytes);
      StaysUnheld(next, slot, AsRow(), spare);
      if !ok {
        next := budget.Rows();
        SetExtra(0);
        StaysUnheld(next, slot, AsRow(), spare);
      }
    }

    /** Gives everything back. A second release gives back nothing. */
    method Release()
      requires Drawn()
      modifies this, budget`bytes, budget`controlBytes
      ensures Booked(old(budget.Rows()), EMPTY) && budget.bytes == old(budget.bytes) - old(bytes)
    {
      hide Accounts, Charged, Controlled;
      ghost var rows := budget.Rows();
      assert rows[slot] == AsRow();
      ChargedAt(rows, slot, AsRow());
      budget.bytes := budget.bytes - bytes;
      budget.controlBytes := budget.controlBytes - controlBytes;
      bytes, controlBytes := 0, 0;
      backing, scratch, extra := null, null, 0;
      parked := null;
      AccountsAt(rows, slot, EMPTY);
      Rebalanced(rows, EMPTY);
    }
  }

  predicate Scratchable(size: nat) { MIN_SCRATCH <= size <= MAX_SCRATCH }

  /** Buffers are made in whole blocks. */
  function RoundedUp(size: nat): (capacity: nat)
    ensures size <= capacity < size + SCRATCH_BLOCK && capacity % SCRATCH_BLOCK == 0
  {
    (size + SCRATCH_BLOCK - 1) / SCRATCH_BLOCK * SCRATCH_BLOCK
  }

  lemma RowFacts(rows: seq<Row>, i: nat)
    requires Accounts(rows) && i < |rows|
    ensures rows[i].backing != null ==> rows[i].backing.Length <= rows[i].bytes
    ensures rows[i].parked != null ==> ParkedRow(rows[i])
    ensures rows[i].scratch != null ==> rows[i].backing != null
  {
  }

  class Scratch {
    var idle: seq<Lease>
    var closed: bool

    constructor ()
      ensures idle == [] && !closed
    {
      idle, closed := [], false;
    }

    /** The idle leases are on the books of the budget, parked here, each once. */
    ghost predicate Valid(budget: Budget)
      reads this, idle, budget`leases
    {
      && (forall i :: 0 <= i < |idle| ==> Holds(budget, idle[i]))
      && (forall i, j :: 0 <= i < j < |idle| ==> idle[i] != idle[j])
    }

    ghost predicate Holds(budget: Budget, entry: Lease)
      reads entry, budget`leases
    {
      entry.budget == budget && entry.slot < |budget.leases| && budget.leases[entry.slot] == entry
          && entry.parked == this
    }

    /** Buffers waiting for reuse have been cleared. */
    ghost predicate Clean()
      reads this, idle, set i | 0 <= i < |idle| :: idle[i].backing
    {
      forall i :: 0 <= i < |idle| ==> Zeroed(idle[i].backing)
    }

    /** Takes an idle lease off the stack, gives back its charge and keeps its buffer. */
    method TakeAt(budget: Budget, index: nat) returns (backing: array<int>)
      requires budget.Valid() && Valid(budget) && Clean() && index < |idle|
      modifies `idle, idle[index], budget`bytes, budget`controlBytes
      ensures budget.Valid() && Valid(budget) && Clean() && budget.leases == old(budget.leases)
      ensures idle == old(idle[..index] + idle[index + 1..])
      ensures Zeroed(backing) && Unheld(budget.Rows(), backing)
      ensures budget.Rows() == old(budget.Rows())[old(idle[index]).slot := EMPTY]
      ensures backing == old(idle[index].backing) && budget.bytes == old(budget.bytes) - backing.Length
    {
      hide Accounts, Charged, Controlled;
      var entry := idle[index];
      ghost var rows := budget.Rows();
      assert rows[entry.slot] == entry.AsRow();
      RowFacts(rows, entry.slot);
      ChargedAt(rows, entry.slot, EMPTY);
      backing := entry.backing;
      idle := idle[..index] + idle[index + 1..];
      entry.Release();
      OnceReleased(rows, entry.slot);
    }

    /** Charges the lease for the reused buffer, or for a new one, and lets it hold it; when that
        does not fit it gets a buffer of its own that will not be reused. */
    method Supply(lease: Lease, size: nat, capacity: nat, reused: array?<int>) returns (buffer: array<int>)
      requires lease.Drawn() && Valid(lease.budget) && Clean() && lease.parked == null
      requires lease.backing == null && lease.scratch == null && lease.extra == 0 && size <= lease.bytes
               && size <= capacity
      requires reused != null ==> reused.Length == capacity && Zeroed(reused) && Unheld(lease.budget.Rows(), reused)
      modifies lease, lease.budget`bytes
      ensures lease.Booked(old(lease.budget.Rows()), lease.AsRow()) && lease.budget.leases == old(lease.budget.leases)
      ensures Valid(lease.budget) && Clean() && lease.parked == null
      ensures lease.backing != null <==> old(lease.budget.bytes) + capacity - size <= lease.budget.maxBytes
      ensures Zeroed(buffer) && buffer.Length == if lease.backing == null then size else capacity
      ensures if lease.backing == null then fresh(buffer) && lease.AsRow() == old(lease.AsRow())
              else
                && buffer == lease.backing
                && lease.AsRow() == Row(old(lease.bytes) + capacity - size, old(lease.controlBytes), capacity - size,
                                        buffer, this, null)
      ensures lease.backing != null ==> if reused != null then buffer == reused else fresh(buffer)
      ensures lease.backing != null ==> Unheld(old(lease.budget.Rows()), buffer)
    {
      hide Accounts, Charged, Controlled, Zeroed, Unheld;
      NotParked(lease);
      ghost var rows := lease.budget.Rows();
      var ok := lease.ChargeBuffer(size, capacity, reused);
      if !ok {
        buffer := Make(size);
        return;
      }
      if reused != null {
        buffer := reused;
      } else {
        buffer := Make(capacity);
        NobodyHolds(lease.budget, buffer);
        WasUnheld(rows, lease.slot, lease.AsRow(), buffer);
      }
      lease.Hold(buffer, this);
    }

    /** The buffer and the charge for it go over in one step. */
    method HandOver(lease: Lease) returns (entry: Lease)
      requires lease.Drawn() && lease.parked == null && lease.backing != null && lease.controlBytes == 0
      modifies lease, lease.budget`bytes, lease.budget`leases
      ensures lease.Drawn() && lease.AsRow() == EMPTY && old(lease.backing).Length <= old(lease.bytes)
      ensures lease.budget.bytes == old(lease.budget.bytes) - old(lease.bytes) + old(lease.backing).Length
      ensures fresh(entry) && lease.budget.leases == old(lease.budget.leases) + [entry] && Holds(lease.budget, entry)
      ensures entry.AsRow() == Row(old(lease.backing).Length, 0, 0, old(lease.backing), null, this)
    {
      hide Accounts, Charged, Controlled, Unheld;
      var budget := lease.budget;
      ghost var rows := budget.Rows();
      assert rows[lease.slot] == lease.AsRow();
      RowFacts(rows, lease.slot);
      var capacity := lease.backing.Length;
      entry := new Lease(budget, |budget.leases|);
      entry.bytes, entry.backing, entry.parked := capacity, lease.backing, this;
      ghost var moved := rows[lease.slot := EMPTY];
      Moved(rows, lease.slot, this);
      budget.bytes := budget.bytes - lease.bytes + capacity;
      lease.bytes, lease.extra, lease.backing, lease.scratch := 0, 0, null, null;
      budget.leases := budget.leases + [entry];
      assert budget.Rows() == moved + [entry.AsRow()];
    }

    method Clear(backing: array<int>)
      modifies backing
      ensures Zeroed(backing)
    {
      var k := 0;
      while k < backing.Length
        invariant 0 <= k <= backing.Length && forall j :: 0 <= j < k ==> backing[j] == 0
      {
        backing[k] := 0;
        k := k + 1;
      }
    }

    /** The buffer of a lease in use is none of the parked ones. */
    lemma NotShared(lease: Lease)
      requires lease.Drawn() && Valid(lease.budget) && lease.parked == null && lease.backing != null
      ensures forall i :: 0 <= i < |idle| ==> idle[i].backing != lease.backing
    {
      var rows := lease.budget.Rows();
      forall i | 0 <= i < |idle| ensures idle[i].backing != lease.backing {
        assert rows[idle[i].slot] == idle[i].AsRow() && rows[lease.slot] == lease.AsRow();
      }
    }

    /** A parked lease is none of those in use. */
    lemma NotParked(lease: Lease)
      requires lease.Drawn() && Valid(lease.budget) && lease.parked == null
      ensures lease !in idle
    {
    }
  }

  lemma BytesBounded(lease: Lease)
    requires lease.Drawn()
    ensures lease.bytes <= lease.budget.bytes <= lease.budget.maxBytes <= MAX_UINT64
  {
    var rows := lease.budget.Rows();
    assert rows[lease.slot] == lease.AsRow();
    ChargedAt(rows, lease.slot, lease.AsRow());
  }

  ghost predicate Zeroed(backing: array?<int>)
    reads backing
  {
    backing != null ==> forall k :: 0 <= k < backing.Length ==> backing[k] == 0
  }

  lemma WasUnheld(rows: seq<Row>, i: nat, row: Row, buffer: array<int>)
    requires i < |rows| && rows[i].backing == null && Unheld(rows[i := row], buffer)
    ensures Unheld(rows, buffer)
  {
    assert forall k :: 0 <= k < |rows| && k != i ==> rows[i := row][k] == rows[k];
  }

  lemma StaysUnheld(rows: seq<Row>, i: nat, row: Row, spare: array?<int>)
    requires i < |rows| && row.backing == null && (spare != null ==> Unheld(rows, spare))
    ensures spare != null ==> Unheld(rows[i := row], spare)
  {
  }

  /** A buffer that changes from one lease to a parked one. */
  lemma Moved(rows: seq<Row>, i: nat, into: Scratch)
    requires Accounts(rows) && i < |rows| && rows[i].backing != null
    ensures var entry := Row(rows[i].backing.Length, 0, 0, rows[i].backing, null, into);
            var after := rows[i := EMPTY] + [entry];
            && Accounts(after) && Charged(after) == Charged(rows) - rows[i].bytes + entry.bytes
            && Controlled(after) == Controlled(rows) - rows[i].control
            && rows[i].bytes <= Charged(rows) && rows[i].backing.Length <= rows[i].bytes
  {
    hide Accounts, Charged, Controlled;
    var entry := Row(rows[i].backing.Length, 0, 0, rows[i].backing, null, into);
    RowFacts(rows, i);
    ChargedAt(rows, i, EMPTY);
    AccountsAt(rows, i, EMPTY);
    OnceReleased(rows, i);
    ChargedMore(rows[i := EMPTY], entry);
    AccountsMore(rows[i := EMPTY], entry);
  }

  twostate lemma NobodyHolds(budget: Budget, new buffer: array<int>)
    requires fresh(buffer) && budget.leases == old(budget.leases)
    requires forall l :: l in budget.leases ==> l.backing == old(l.backing)
    ensures Unheld(budget.Rows(), buffer)
  {
  }

  /** New buffers are zero. */
  method Make(size: nat) returns (buffer: array<int>)
    ensures fresh(buffer) && buffer.Length == size && Zeroed(buffer)
  {
    buffer := new int[size](_ => 0);
  }

  lemma OnceReleased(rows: seq<Row>, i: nat)
    requires Accounts(rows) && i < |rows| && rows[i].backing != null
    ensures Unheld(rows[i := EMPTY], rows[i].backing)
  {
  }
}
