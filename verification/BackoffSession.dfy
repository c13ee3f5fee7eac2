/** The backoffs of an OSD session: ranges of objects it must not send to for now, and the
    submissions that an end of a backoff sends again. */
module BackoffSession {
  import opened Common
  import opened HObject
  import opened P = Placement
  import L = Ledger

  const OVERHEAD := 1024

  /** A range of objects of one placement group. */
  datatype Backoff = Backoff(pg: Pg, id: nat, begin: HObject, end: HObject)

  predicate Blocks(b: Backoff, o: HObject) { Contains(b.begin, b.end, o) }

  function Weight(o: HObject): nat { |o.key| + |o.name| + |o.namespace| }

  function Charge(b: Backoff): nat { OVERHEAD + Weight(b.begin) + Weight(b.end) }

  /** There is room for a backoff once the one with the same id, if any, is gone. */
  predicate FitsIn(table: map<nat, Backoff>, bytes: nat, maxCount: nat, maxBytes: nat, b: Backoff) {
    && (b.id in table || |table| < maxCount)
    && bytes - (if b.id in table then Charge(table[b.id]) else 0) + Charge(b) <= maxBytes
  }

  // ---------------------------------------------------------------- the table and its index

  lemma NoBackoffs()
    ensures Filed(map[]) && Indexed(map[], map[]) && L.Lists([], Charges(map[])) && L.Total([], Charges(map[])) == 0
  {
  }

  /** The backoffs of one placement group. */
  function Of(table: map<nat, Backoff>, pg: Pg): (r: map<nat, Backoff>) {
    map id | id in table && table[id].pg == pg :: table[id]
  }

  /** The index has the backoffs of every group that has any, and nothing else. */
  ghost predicate Indexed(table: map<nat, Backoff>, index: map<Pg, map<nat, Backoff>>) {
    && (forall pg :: pg in index ==> index[pg] == Of(table, pg) && index[pg] != map[])
    && (forall id :: id in table ==> table[id].pg in index)
  }

  ghost predicate Filed(table: map<nat, Backoff>) { forall id :: id in table ==> table[id].id == id }

  function Charges(table: map<nat, Backoff>): (r: map<nat, nat>) { map id | id in table :: Charge(table[id]) }

  lemma IndexAdds(table: map<nat, Backoff>, index: map<Pg, map<nat, Backoff>>, b: Backoff)
    requires Indexed(table, index) && b.id !in table
    ensures var ranges := if b.pg in index then index[b.pg] else map[];
            Indexed(table[b.id := b], index[b.pg := ranges[b.id := b]])
  {
    var after := table[b.id := b];
    var ranges := if b.pg in index then index[b.pg] else map[];
    assert b.pg !in index ==> Of(table, b.pg) == map[];
    assert ranges == Of(table, b.pg);
    assert Of(after, b.pg) == ranges[b.id := b];
    assert b.id in ranges[b.id := b];
    forall pg | pg in index && pg != b.pg ensures Of(after, pg) == Of(table, pg) { }
  }

  lemma IndexRemoves(table: map<nat, Backoff>, index: map<Pg, map<nat, Backoff>>, id: nat)
    requires Indexed(table, index) && id in table
    ensures var pg := table[id].pg;
            && pg in index
            && var ranges := index[pg] - {id};
            Indexed(table - {id}, if ranges == map[] then index - {pg} else index[pg := ranges])
  {
    var pg := table[id].pg;
    var after, ranges := table - {id}, index[pg] - {id};
    assert ranges == Of(after, pg);
    forall other | other in index && other != pg ensures Of(after, other) == Of(table, other) { }
    forall k | k in after && after[k].pg == pg ensures ranges != map[] { assert k in ranges; }
  }

  lemma ChargesAt(table: map<nat, Backoff>, b: Backoff)
    ensures Charges(table[b.id := b]) == Charges(table)[b.id := Charge(b)]
  {
  }

  lemma ChargesWithout(table: map<nat, Backoff>, id: nat)
    ensures Charges(table - {id}) == Charges(table) - {id}
  {
  }

  /** The backoffs in force, their index by group, and what they are charged for. */
  class Backoffs {
    const maxCount: nat
    const maxBytes: nat
    var table: map<nat, Backoff>
    var index: map<Pg, map<nat, Backoff>>
    var bytes: nat
    ghost var order: seq<nat>

    constructor (maxCount: nat, maxBytes: nat)
      ensures Valid() && table == map[] && index == map[] && bytes == 0
    {
      this.maxCount := if maxCount == 0 then 4096 else maxCount;
      this.maxBytes := if maxBytes == 0 then 0x80_0000 else maxBytes;
      table, index, bytes, order := map[], map[], 0, [];
    }

    /** The index is the table by group; the charge is the sum of the entries', within limits. */
    ghost predicate Valid()
      reads this
    {
      && Filed(table) && Indexed(table, index)
      && L.Lists(order, Charges(table)) && bytes == L.Total(order, Charges(table)) <= maxBytes && |table| <= maxCount
    }

    ghost predicate Fits(b: Backoff)
      reads this
    {
      FitsIn(table, bytes, maxCount, maxBytes, b)
    }

    /** Puts a backoff in force, in place of one with the same id, if there is room for it. */
    method Add(b: Backoff) returns (ok: bool)
      requires Valid()
      modifies this
      ensures Valid() && table == if ok then old(table)[b.id := b] else old(table)
      ensures ok <==> old(Fits(b))
    {
      hide L.Lists, L.Total, Indexed, Charge;
      var exists_ := b.id in table;
      var retained := bytes;
      if exists_ {
        L.Struck(order, Charges(table), b.id);
        retained := retained - Charge(table[b.id]);
      }
      if (!exists_ && |table| >= maxCount) || retained > maxBytes || Charge(b) > maxBytes - retained { return false; }
      ghost var before := table;
      var removed := Remove(b.id);
      CountBack(before, b);
      RemovedCount(before, b.id);
      Enter(b);
      assert table == before[b.id := b];
      return true;
    }

    /** Nothing is in force any more. */
    method Clear()
      requires Valid()
      modifies this
      ensures Valid() && table == map[] && bytes == 0
    {
      NoBackoffs();
      hide L.Lists, L.Total, Indexed, Filed, Charges;
      table, index, bytes, order := map[], map[], 0, [];
    }

    /** Files a backoff under an id that is free. */
    method Enter(b: Backoff)
      requires Valid() && b.id !in table && bytes + Charge(b) <= maxBytes && |table| < maxCount
      modifies this
      ensures Valid() && table == old(table)[b.id := b]
    {
      hide L.Lists, L.Total, Indexed, Charge;
      IndexAdds(table, index, b);
      L.Entered(order, Charges(table), b.id, Charge(b));
      ChargesAt(table, b);
      CountAt(table, b.id, b);
      order := order + [b.id];
      var ranges := if b.pg in index then index[b.pg] else map[];
      table := table[b.id := b];
      bytes := bytes + Charge(b);
      index := index[b.pg := ranges[b.id := b]];
    }

    method Remove(id: nat) returns (r: seq<Backoff>)
      requires Valid()
      modifies this
      ensures Valid() && table == old(table) - {id}
      ensures r == if id in old(table) then [old(table)[id]] else []
      ensures bytes == old(bytes) - (if id in old(table) then Charge(old(table)[id]) else 0)
    {
      hide L.Lists, L.Total, Indexed, Charge;
      if id !in table {
        assert table == table - {id};
        return [];
      }
      var b := table[id];
      L.Struck(order, Charges(table), id);
      ChargesWithout(table, id);
      IndexRemoves(table, index, id);
      CountLess(table, id);
      order := L.Dropped(order, id);
      bytes := bytes - Charge(b);
      table := table - {id};
      var ranges := index[b.pg] - {id};
      index := if ranges == map[] then index - {b.pg} else index[b.pg := ranges];
      return [b];
    }

    /** Whether any backoff in force for the group covers the object, by way of the index. */
    method IsBlocked(pg: Pg, o: HObject) returns (blocked: bool)
      requires Valid()
      ensures blocked <==> exists id :: id in table && table[id].pg == pg && Blocks(table[id], o)
    {
      hide Blocks, L.Lists, L.Total;
      if pg !in index {
        assert forall id :: id in table ==> table[id].pg != pg;
        return false;
      }
      var ranges := index[pg];
      assert ranges == Of(table, pg);
      var left := ranges.Keys;
      while left != {}
        invariant left <= ranges.Keys && forall id :: id in ranges && id !in left ==> !Blocks(ranges[id], o)
        decreases |left|
      {
        var id := PickMember(left);
        if Blocks(ranges[id], o) {
          assert id in table && table[id].pg == pg;
          return true;
        }
        left := left - {id};
      }
      forall id | id in table && table[id].pg == pg ensures !Blocks(table[id], o) { assert id in ranges; }
      return false;
    }
  }

  lemma CountAt(table: map<nat, Backoff>, id: nat, b: Backoff)
    requires id !in table
    ensures |table[id := b]| == |table| + 1
  {
    assert table[id := b].Keys == table.Keys + {id};
    assert |table[id := b].Keys| == |table[id := b]| && |table.Keys| == |table|;
  }

  lemma CountLess(table: map<nat, Backoff>, id: nat)
    requires id in table
    ensures |table - {id}| == |table| - 1
  {
    assert table.Keys == (table - {id}).Keys + {id};
    assert |(table - {id}).Keys| == |table - {id}| && |table.Keys| == |table|;
  }

  lemma RemovedCount(table: map<nat, Backoff>, id: nat)
    ensures |table - {id}| == if id in table then |table| - 1 else |table|
  {
    if id in table { CountLess(table, id); } else { assert table - {id} == table; }
  }

  lemma CountBack(table: map<nat, Backoff>, b: Backoff)
    ensures |(table - {b.id})[b.id := b]| == if b.id in table then |table| else |table| + 1
  {
    CountAt(table - {b.id}, b.id, b);
    if b.id in table { CountLess(table, b.id); } else { assert table - {b.id} == table; }
  }

  // ---------------------------------------------------------------- submissions

  /** A request on its way to the OSD, in the list of its placement group. */
  class Submission {
    const id: nat
    const pg: Pg
    const object_: HObject
    var previous: Submission?
    var next: Submission?
    var resend: bool

    constructor (id: nat, pg: Pg, object_: HObject)
      ensures this.id == id && this.pg == pg && this.object_ == object_ && previous == null && next == null && !resend
    {
      this.id, this.pg, this.object_, previous, next, resend := id, pg, object_, null, null, false;
    }
  }

  ghost function Nodes(list: seq<Submission>): set<Submission> { set n | n in list }

  /** The nodes are linked both ways in this order. */
  ghost predicate Chained(list: seq<Submission>)
    reads list
  {
    && (forall i {:trigger list[i].next} :: 0 <= i < |list| ==>
        list[i].next == if i == |list| - 1 then null else list[i + 1])
    && (forall i {:trigger list[i].previous} :: 0 <= i < |list| ==>
        list[i].previous == if i == 0 then null else list[i - 1])
  }

  ghost predicate Apart(list: seq<Submission>) { forall i, j :: 0 <= i < j < |list| ==> list[i] != list[j] }

  ghost predicate OfGroup(list: seq<Submission>, pg: Pg) { forall i :: 0 <= i < |list| ==> list[i].pg == pg }

  /** Puts a node in front of a list. */
  method PushFront(ghost list: seq<Submission>, head: Submission?, node: Submission)
    requires Chained(list) && Apart(list) && node !in list && (if list == [] then head == null else head == list[0])
    modifies node`next, node`previous, (if head == null then {} else {head})`previous
    ensures Chained([node] + list)
  {
    ghost var longer := [node] + list;
    node.previous, node.next := null, head;
    if head != null { head.previous := node; }
    assert forall i :: 0 < i < |longer| ==> longer[i] == list[i - 1];
  }

  ghost function Cut(list: seq<Submission>, i: nat): seq<Submission>
    requires i < |list|
  {
    list[..i] + list[i + 1..]
  }

  /** Takes the node at `i` out of its list. */
  method Unlink(ghost list: seq<Submission>, ghost i: nat, node: Submission)
    requires i < |list| && list[i] == node && Chained(list) && Apart(list)
    modifies node`previous, node`next
    modifies (if node.previous == null then {} else {node.previous})`next,
             (if node.next == null then {} else {node.next})`previous
    ensures Chained(Cut(list, i)) && node.previous == null && node.next == null
  {
    ghost var shorter := Cut(list, i);
    assert node.previous == if i == 0 then null else list[i - 1];
    assert node.next == if i == |list| - 1 then null else list[i + 1];
    if node.previous != null { node.previous.next := node.next; }
    if node.next != null { node.next.previous := node.previous; }
    node.previous, node.next := null, null;
    assert forall j :: 0 <= j < i ==> shorter[j] == list[j];
    assert forall j :: i <= j < |shorter| ==> shorter[j] == list[j + 1];
  }

  /** Heads and lists agree, and every list holds distinct nodes of its group. */
  ghost predicate Headed(heads: map<Pg, Submission>, lists: map<Pg, seq<Submission>>) {
    && heads.Keys == lists.Keys
    && forall pg :: pg in lists ==>
        lists[pg] != [] && heads[pg] == lists[pg][0] && Apart(lists[pg]) && OfGroup(lists[pg], pg)
  }

  /** The table holds exactly the nodes of the lists, by id. */
  ghost predicate Tabled(table: map<nat, Submission>, lists: map<Pg, seq<Submission>>) {
    && (forall pg, i :: pg in lists && 0 <= i < |lists[pg]| ==>
        lists[pg][i].id in table && table[lists[pg][i].id] == lists[pg][i])
    && (forall id :: id in table ==> table[id].id == id && table[id].pg in lists && table[id] in lists[table[id].pg])
  }

  lemma HeadedMore(heads: map<Pg, Submission>, lists: map<Pg, seq<Submission>>, node: Submission)
    requires Headed(heads, lists) && (node.pg in lists ==> node !in lists[node.pg])
    ensures var list := if node.pg in lists then lists[node.pg] else [];
            Headed(heads[node.pg := node], lists[node.pg := [node] + list])
  {
    var list := if node.pg in lists then lists[node.pg] else [];
    var longer := [node] + list;
    forall i, j | 0 <= i < j < |longer| ensures longer[i] != longer[j] { assert longer[j] == list[j - 1]; }
  }

  lemma TabledMore(table: map<nat, Submission>, lists: map<Pg, seq<Submission>>, node: Submission)
    requires Tabled(table, lists) && node.id !in table
    ensures var list := if node.pg in lists then lists[node.pg] else [];
            Tabled(table[node.id := node], lists[node.pg := [node] + list])
  {
    var list := if node.pg in lists then lists[node.pg] else [];
    var longer: seq<Submission> := [node] + list;
    var after: map<nat, Submission>, more: map<Pg, seq<Submission>> := table[node.id := node], lists[node.pg := longer];
    forall pg, i | pg in more && 0 <= i < |more[pg]|
      ensures more[pg][i].id in after && after[more[pg][i].id] == more[pg][i]
    {
      if pg == node.pg { assert i > 0 ==> more[pg][i] == list[i - 1]; }
    }
    forall id | id in after ensures after[id].id == id && after[id].pg in more && after[id] in more[after[id].pg] {
      if id == node.id { assert longer[0] == node; }
    }
  }

  ghost function ListsWithout(lists: map<Pg, seq<Submission>>, pg: Pg, i: nat): map<Pg, seq<Submission>>
    requires pg in lists && i < |lists[pg]|
  {
    if |lists[pg]| == 1 then lists - {pg} else lists[pg := Cut(lists[pg], i)]
  }

  function HeadsWithout(heads: map<Pg, Submission>, pg: Pg, isHead: bool, next: Submission?): map<Pg, Submission> {
    if !isHead then heads else if next == null then heads - {pg} else heads[pg := next]
  }

  lemma HeadedLess(heads: map<Pg, Submission>, lists: map<Pg, seq<Submission>>, pg: Pg, i: nat, next: Submission?)
    requires Headed(heads, lists) && pg in lists && i < |lists[pg]|
    requires next == if i == |lists[pg]| - 1 then null else lists[pg][i + 1]
    ensures Headed(HeadsWithout(heads, pg, i == 0, next), ListsWithout(lists, pg, i))
  {
    var list, shorter := lists[pg], Cut(lists[pg], i);
    forall a, b | 0 <= a < b < |shorter| ensures shorter[a] != shorter[b] {
      assert shorter[a] == list[if a < i then a else a + 1] && shorter[b] == list[if b < i then b else b + 1];
    }
    forall a | 0 <= a < |shorter| ensures shorter[a].pg == pg { assert shorter[a] == list[if a < i then a else a + 1]; }
  }

  lemma TabledLess(table: map<nat, Submission>, lists: map<Pg, seq<Submission>>, pg: Pg, i: nat)
    requires Tabled(table, lists) && pg in lists && i < |lists[pg]| && Apart(lists[pg])
    requires forall other :: other in lists ==> OfGroup(lists[other], other)
    ensures Tabled(table - {lists[pg][i].id}, ListsWithout(lists, pg, i))
  {
    var list, shorter, id := lists[pg], Cut(lists[pg], i), lists[pg][i].id;
    var after: map<nat, Submission>, less: map<Pg, seq<Submission>> := table - {id}, ListsWithout(lists, pg, i);
    forall k, a | k in less && 0 <= a < |less[k]| ensures less[k][a].id in after && after[less[k][a].id] == less[k][a] {
      if k == pg {
        assert less[k][a] == list[if a < i then a else a + 1];
        assert table[less[k][a].id] == less[k][a];
      } else {
        assert lists[k][a].pg == k && table[lists[k][a].id] == lists[k][a];
      }
    }
    forall k | k in after ensures after[k].id == k && after[k].pg in less && after[k] in less[after[k].pg] {
      if after[k].pg == pg {
        var a :| 0 <= a < |list| && list[a] == after[k];
        assert a != i;
        assert shorter[if a < i then a else a - 1] == after[k];
      }
    }
  }

  /** The nodes are those of the lists and of the table. */
  ghost predicate Gathered(nodes: set<Submission>, table: map<nat, Submission>, lists: map<Pg, seq<Submission>>) {
    && (forall pg, i :: pg in lists && 0 <= i < |lists[pg]| ==> lists[pg][i] in nodes)
    && (forall id :: id in table ==> table[id] in nodes)
  }

  /** Every list is linked. */
  ghost predicate AllChained(lists: map<Pg, seq<Submission>>, nodes: set<Submission>)
    reads nodes
  {
    forall pg :: pg in lists ==> (forall n :: n in lists[pg] ==> n in nodes) && Chained(lists[pg])
  }

  class Submissions {
    var table: map<nat, Submission>
    var heads: map<Pg, Submission>
    ghost var lists: map<Pg, seq<Submission>>
    ghost var nodes: set<Submission>

    constructor ()
      ensures Valid() && table == map[] && nodes == {}
    {
      table, heads, lists, nodes := map[], map[], map[], {};
    }

    ghost predicate Valid()
      reads `heads, `table, `lists, `nodes, nodes
    {
      Headed(heads, lists) && Tabled(table, lists) && Gathered(nodes, table, lists) && AllChained(lists, nodes)
    }

    /** Links a new node in front of its group's list; the other lists stay linked. */
    method PutFront(ghost list: seq<Submission>, head: Submission?, node: Submission)
      requires Headed(heads, lists) && AllChained(lists, nodes) && node !in nodes
               && list == if node.pg in lists then lists[node.pg] else []
      requires head == if node.pg in heads then heads[node.pg] else null
      modifies node`next, node`previous, nodes`next, nodes`previous
      ensures AllChained(lists[node.pg := [node] + list], nodes + {node})
    {
      hide Chained, Apart;
      NoneChained();
      Members(list, node.pg);
      assert head != null ==> head in list;
      PushFront(list, head, node);
      forall k | k in lists && k != node.pg ensures Chained(lists[k]) { Members(lists[k], k); }
    }

    /** Registers a request in front of its group's list. */
    method Add(id: nat, pg: Pg, object_: HObject) returns (node: Submission)
      requires Valid() && id !in table
      modifies this, nodes`next, nodes`previous
      ensures Valid() && table == old(table)[id := node] && fresh(node) && nodes == old(nodes) + {node}
      ensures node.id == id && node.pg == pg && node.object_ == object_ && !node.resend
    {
      hide Tabled, AllChained, Headed, Gathered;
      NewNode(nodes, lists, pg);
      node := new Submission(id, pg, object_);
      ghost var list := if pg in lists then lists[pg] else [];
      var head := if pg in heads then heads[pg] else null;
      HeadedMore(heads, lists, node);
      TabledMore(table, lists, node);
      GatheredMore(nodes, table, lists, node);
      PutFront(list, head, node);
      table := table[id := node];
      heads := heads[pg := node];
      lists := lists[pg := [node] + list];
      nodes := nodes + {node};
    }

    /** Unlinks the node at `i` of its list; the other lists stay linked. */
    method TakeOut(node: Submission, ghost i: nat)
      requires Headed(heads, lists) && AllChained(lists, nodes) && node.pg in lists && i < |lists[node.pg]|
               && lists[node.pg][i] == node
      modifies nodes`next, nodes`previous
      ensures AllChained(ListsWithout(lists, node.pg, i), nodes)
    {
      hide Chained, Apart, Cut, ListsWithout;
      ghost var list := lists[node.pg];
      ChainedAt(list, i);
      Members(list, node.pg);
      Unlink(list, i, node);
      forall k | k in lists && k != node.pg ensures Chained(lists[k]) { Members(lists[k], k); }
      LinkedLess(lists, node.pg, i, nodes);
    }

    /** Takes a request off its list, if it is registered. */
    method Remove(id: nat)
      requires Valid()
      modifies this, nodes`next, nodes`previous
      ensures Valid() && table == old(table) - {id} && nodes == old(nodes)
    {
      hide Tabled, AllChained, Headed, Gathered, ListsWithout, HeadsWithout;
      TabledNodes(table, lists);
      if id !in table {
        assert table - {id} == table;
        return;
      }
      var node := table[id];
      var pg := node.pg;
      ghost var list := lists[pg];
      ghost var i :| 0 <= i < |list| && list[i] == node;
      Neighbours(heads, lists, nodes, pg, i);
      var isHead, next := node.previous == null, node.next;
      HeadedLess(heads, lists, pg, i, next);
      TabledLess(table, lists, pg, i);
      GatheredLess(nodes, table, lists, pg, i);
      TakeOut(node, i);
      table := table - {id};
      heads := HeadsWithout(heads, pg, isHead, next);
      lists := ListsWithout(lists, pg, i);
    }

    /** Marks a group's nodes; every list stays linked. */
    method WalkList(ghost list: seq<Submission>, head: Submission?, b: Backoff)
      requires Headed(heads, lists) && AllChained(lists, nodes) && list == if b.pg in lists then lists[b.pg] else []
      requires head == if b.pg in heads then heads[b.pg] else null
      modifies nodes`resend
      ensures AllChained(lists, nodes)
      ensures forall j :: 0 <= j < |list| ==> list[j].resend == (old(list[j].resend) || Blocks(b, list[j].object_))
      ensures forall n :: n in nodes && n !in list ==> n.resend == old(n.resend)
    {
      hide Blocks, Chained, Apart;
      NoneChained();
      Members(list, b.pg);
      Walk(list, head, b);
      forall k | k in lists && k != b.pg ensures Chained(lists[k]) { Members(lists[k], k); }
    }

    /** Marks every registered request of the group in the range to be sent again, and no other. */
    method MarkResend(b: Backoff)
      requires Valid()
      modifies nodes`resend
      ensures Valid() && table == old(table)
      ensures forall id :: id in table ==>
                table[id].resend == (old(table[id].resend) || (table[id].pg == b.pg && Blocks(b, table[id].object_)))
    {
      hide Tabled, Blocks, Gathered, AllChained;
      TabledNodes(table, lists);
      GatheredTable(nodes, table, lists);
      ghost var list := if b.pg in lists then lists[b.pg] else [];
      var head := if b.pg in heads then heads[b.pg] else null;
      WalkList(list, head, b);
      forall id | id in table
        ensures table[id].resend == (old(table[id].resend) || (table[id].pg == b.pg && Blocks(b, table[id].object_)))
      {
        if table[id] in list { var j :| 0 <= j < |list| && list[j] == table[id]; }
        if b.pg in lists { Members(lists[b.pg], b.pg); }
      }
    }
  }

  /** Walks a list and marks the nodes in the range. */
  method Walk(ghost list: seq<Submission>, head: Submission?, b: Backoff)
    requires Chained(list) && Apart(list) && (if list == [] then head == null else head == list[0])
    modifies Nodes(list)`resend
    ensures Chained(list)
    ensures forall j :: 0 <= j < |list| ==> list[j].resend == (old(list[j].resend) || Blocks(b, list[j].object_))
  {
    hide Blocks;
    var node := head;
    ghost var i := 0;
    while node != null
      invariant 0 <= i <= |list| && node == if i < |list| then list[i] else null
      invariant forall j :: 0 <= j < |list| ==>
                  list[j].resend == (old(list[j].resend) || (j < i && Blocks(b, list[j].object_)))
      decreases |list| - i
    {
      NoOther(list, i);
      assert node in Nodes(list);
      if Blocks(b, node.object_) { node.resend := true; }
      node := node.next;
      i := i + 1;
    }
  }

  lemma NoOther(list: seq<Submission>, i: nat)
    requires Apart(list) && i < |list|
    ensures forall j :: 0 <= j < |list| && j != i ==> list[j] != list[i]
  {
  }

  lemma Members(list: seq<Submission>, pg: Pg)
    requires OfGroup(list, pg)
    ensures forall n :: n in list ==> n.pg == pg
  {
  }

  lemma GatheredTable(nodes: set<Submission>, table: map<nat, Submission>, lists: map<Pg, seq<Submission>>)
    requires Gathered(nodes, table, lists)
    ensures forall id :: id in table ==> table[id] in nodes
  {
  }

  lemma GatheredMore(nodes: set<Submission>, table: map<nat, Submission>, lists: map<Pg, seq<Submission>>,
                     node: Submission)
    requires Gathered(nodes, table, lists)
    ensures var list := if node.pg in lists then lists[node.pg] else [];
            Gathered(nodes + {node}, table[node.id := node], lists[node.pg := [node] + list])
  {
  }

  lemma GatheredLess(nodes: set<Submission>, table: map<nat, Submission>, lists: map<Pg, seq<Submission>>, pg: Pg,
                     i: nat)
    requires Gathered(nodes, table, lists) && pg in lists && i < |lists[pg]|
    ensures Gathered(nodes, table - {lists[pg][i].id}, ListsWithout(lists, pg, i))
  {
    var list, shorter := lists[pg], Cut(lists[pg], i);
    forall a | 0 <= a < |shorter| ensures shorter[a] in nodes { assert shorter[a] == list[if a < i then a else a + 1]; }
  }

  lemma LinkedLess(lists: map<Pg, seq<Submission>>, pg: Pg, i: nat, nodes: set<Submission>)
    requires pg in lists && i < |lists[pg]| && Chained(Cut(lists[pg], i))
    requires forall k :: k in lists ==> forall n :: n in lists[k] ==> n in nodes
    requires forall k :: k in lists && k != pg ==> Chained(lists[k])
    ensures forall k :: k in ListsWithout(lists, pg, i) ==>
              (forall n :: n in ListsWithout(lists, pg, i)[k] ==> n in nodes) && Chained(ListsWithout(lists, pg, i)[k])
  {
    hide Chained;
    assert forall n :: n in Cut(lists[pg], i) ==> n in lists[pg];
  }

  lemma NewNode(nodes: set<Submission>, lists: map<Pg, seq<Submission>>, pg: Pg)
    requires AllChained(lists, nodes)
    ensures pg in lists ==> forall n :: n in lists[pg] ==> n in nodes
  {
  }

  lemma Neighbours(heads: map<Pg, Submission>, lists: map<Pg, seq<Submission>>, nodes: set<Submission>, pg: Pg, i: nat)
    requires Headed(heads, lists) && AllChained(lists, nodes) && pg in lists && i < |lists[pg]|
    ensures lists[pg][i].next == if i == |lists[pg]| - 1 then null else lists[pg][i + 1]
    ensures lists[pg][i].previous == if i == 0 then null else lists[pg][i - 1]
    ensures Apart(lists[pg]) && forall other :: other in lists ==> OfGroup(lists[other], other)
  {
    ChainedAt(lists[pg], i);
  }

  lemma NoneChained() ensures Chained([]) && Apart([]) { }

  lemma ChainedAt(list: seq<Submission>, i: nat)
    requires i < |list| && Chained(list) && Apart(list)
    ensures list[i].next == if i == |list| - 1 then null else list[i + 1]
    ensures list[i].previous == if i == 0 then null else list[i - 1]
  {
  }

  /** The nodes of the lists are those of the table. */
  lemma TabledNodes(table: map<nat, Submission>, lists: map<Pg, seq<Submission>>)
    requires Tabled(table, lists)
    ensures forall pg, n :: pg in lists && n in lists[pg] ==> n.id in table && table[n.id] == n && n in table.Values
    ensures forall id :: id in table ==> table[id].id == id && table[id].pg in lists && table[id] in lists[table[id].pg]
  {
    forall pg, n | pg in lists && n in lists[pg] ensures n.id in table && table[n.id] == n && n in table.Values {
      var i :| 0 <= i < |lists[pg]| && lists[pg][i] == n;
      assert n.id in table.Keys;
    }
  }

  // ---------------------------------------------------------------- the session

  const MAX_ACKS := 16
  const MAX_ACK_BYTES := 0x10_0000

  const WORD := 0x1_0000_0000_0000_0000

  /** An acknowledgment of a block: the bytes it holds, the generation it was queued in and the
      transport generation the block came with. */
  datatype Ack = Ack(backoff: Backoff, bytes: nat, generation: nat, transport: nat)

  function AckBytes(acks: seq<Ack>): (sum: nat) {
    if acks == [] then 0 else AckBytes(acks[..|acks| - 1]) + acks[|acks| - 1].bytes
  }

  lemma AckBytesMore(acks: seq<Ack>, ack: Ack)
    ensures AckBytes(acks + [ack]) == AckBytes(acks) + ack.bytes
  {
    assert (acks + [ack])[..|acks|] == acks;
  }

  lemma {:induction false} AckBytesHead(acks: seq<Ack>)
    requires acks != []
    ensures AckBytes(acks) == acks[0].bytes + AckBytes(acks[1..])
  {
    var rest := acks[1..];
    if rest == [] {
      assert acks[..|acks| - 1] == [];
    } else {
      AckBytesHead(acks[..|acks| - 1]);
      assert acks[..|acks| - 1][1..] == rest[..|rest| - 1];
    }
  }

  lemma AckBytesNone() ensures AckBytes([]) == 0 { }

  lemma {:induction false} AckBytesPrefix(acks: seq<Ack>, i: nat)
    requires i <= |acks|
    ensures AckBytes(acks[..i]) <= AckBytes(acks)
    decreases |acks|
  {
    if i == |acks| {
      assert acks[..i] == acks;
    } else {
      AckBytesPrefix(acks[..|acks| - 1], i);
      assert acks[..|acks| - 1][..i] == acks[..i];
    }
  }

  /** The acknowledgment being sent, as a list of at most one. */
  function Sending(active: Option<Ack>): (r: seq<Ack>) { if active.None? then [] else [active.value] }

  /** The id that many places after another, past the largest word back to zero. */
  function Later(id: nat, d: nat): nat { (id + d) % WORD }

  predicate Taken(table: map<nat, Submission>, id: nat) { id == 0 || id in table }

  lemma LaterByOne(id: nat, d: nat)
    requires id < WORD
    ensures Later(id, 0) == id
    ensures Later(id, d + 1) == if Later(id, d) == WORD - 1 then 0 else Later(id, d) + 1
  {
  }

  /** A backoff message, decoded; a message that does not decode is an error. */
  datatype Order = Garbled | Begin(backoff: Backoff, ackSize: nat) | End(id: nat)

  /** The transport's control generation at the moments it is read while one message is handled. */
  datatype Reads = Reads(arrived: nat, first: nat, second: nat, third: nat, fourth: nat)

  /** It never goes back. */
  ghost predicate Onward(from: nat, now: Reads) {
    from <= now.arrived <= now.first <= now.second <= now.third <= now.fourth
  }

  /** What an order can change, at one moment. */
  datatype Face = Face(table: map<nat, Backoff>, bytes: nat, acks: seq<Ack>, ackCount: nat, ackBytes: nat,
                       generation: nat)

  /** A new generation starts with nothing but the acknowledgment being sent. */
  function Renewed(generation: nat, active: seq<Ack>): Face {
    Face(map[], 0, [], |active|, AckBytes(active), generation)
  }

  /** What the receive loop and the sender of acknowledgments may do. */
  datatype Action =
    | Ordering(order: Order, transport: nat, now: Reads)
    | Resetting(generation: nat)
    | Failing(ack: Ack, generation: nat, again: nat)
    | Taking
    | Done(ok: bool)

  /** The action is an order about the backoff with this id. */
  predicate Naming(action: Action, id: nat) {
    && action.Ordering?
    && ((action.order.Begin? && action.order.backoff.id == id) || (action.order.End? && action.order.id == id))
  }

  ghost predicate Names(actions: seq<Action>, id: nat) { exists i :: 0 <= i < |actions| && Naming(actions[i], id) }

  lemma NamesMore(actions: seq<Action>, i: nat)
    requires i < |actions|
    ensures forall id :: Names(actions[..i + 1], id) <==> Names(actions[..i], id) || Naming(actions[i], id)
  {
    forall id ensures Names(actions[..i + 1], id) <==> Names(actions[..i], id) || Naming(actions[i], id) {
      if Naming(actions[i], id) { assert actions[..i + 1][i] == actions[i]; }
      if Names(actions[..i], id) {
        var k :| 0 <= k < |actions[..i]| && Naming(actions[..i][k], id);
        assert actions[..i + 1][k] == actions[..i][k];
      }
      if Names(actions[..i + 1], id) {
        var k :| 0 <= k < |actions[..i + 1]| && Naming(actions[..i + 1][k], id);
        assert k < i ==> actions[..i][k] == actions[..i + 1][k];
      }
    }
  }

  /** The last control generation read by an action, given the one before it. */
  function Latest(control: nat, action: Action): nat {
    match action
    case Ordering(_, _, now) => now.fourth
    case Resetting(generation) => generation
    case Failing(_, _, again) => again
    case _ => control
  }

  /** No action reads an earlier control generation than one before it. */
  ghost predicate Onwards(control: nat, actions: seq<Action>)
    decreases |actions|
  {
    actions != [] ==>
      && (match actions[0]
          case Ordering(_, _, now) => Onward(control, now)
          case Resetting(generation) => control <= generation
          case Failing(_, generation, again) => control <= generation <= again
          case _ => true)
      && Onwards(Latest(control, actions[0]), actions[1..])
  }

  lemma {:induction false} OnwardsFrom(less: nat, control: nat, actions: seq<Action>)
    requires less <= control && Onwards(control, actions)
    ensures Onwards(less, actions)
    decreases |actions|
  {
    if actions != [] { OnwardsFrom(Latest(less, actions[0]), Latest(control, actions[0]), actions[1..]); }
  }

  ghost predicate Same(before: map<nat, Backoff>, after: map<nat, Backoff>, id: nat) {
    (id in after <==> id in before) && (id in after ==> after[id] == before[id])
  }

  /** A session's receive loop, its sender of acknowledgments and its submitters. What one of them
      does under the session's lock or the acknowledgments' lock is one call; the calls of
      different goroutines come in any order. */
  class Session {
    const backoffs: Backoffs
    const submissions: Submissions
    /** The transport has control generations of its own. */
    const authoritative: bool
    var nextSubmission: nat
    var acks: seq<Ack>
    var active: Option<Ack>
    var ackCount: nat
    var ackBytes: nat
    var ackGeneration: nat
    var failed: bool
    var closed: bool
    /** Every block ever put in force, with the generation it was put in force in. */
    ghost var installed: set<(nat, Backoff)>
    /** The last control generation read. */
    ghost var control: nat

    constructor (maxCount: nat, maxBytes: nat, authoritative: bool, generation: nat)
      ensures Valid() && fresh(backoffs) && fresh(submissions)
      ensures this.authoritative == authoritative && ackGeneration == if authoritative then generation else 0
      ensures acks == [] && active == None && !failed && !closed && installed == {} && control == generation
      ensures backoffs.table == map[] && submissions.table == map[]
    {
      backoffs := new Backoffs(maxCount, maxBytes);
      submissions := new Submissions();
      this.authoritative := authoritative;
      nextSubmission := 0;
      acks, active, ackCount, ackBytes := [], None, 0, 0;
      ackGeneration := if authoritative then generation else 0;
      failed, closed, installed, control := false, false, {}, generation;
    }

    /** Count and bytes cover the queue and the acknowledgment being sent, within the limits. */
    ghost predicate Counted()
      reads this
    {
      && ackCount == |acks| + |Sending(active)| <= MAX_ACKS
      && ackBytes == AckBytes(acks) + AckBytes(Sending(active)) <= MAX_ACK_BYTES
    }

    /** An acknowledgment is of a block that was in force when it was queued. */
    ghost predicate Earned(ack: Ack)
      reads this
    {
      && (ack.generation, ack.backoff) in installed
      && (authoritative ==> ack.transport == ack.generation)
    }

    /** Queued acknowledgments and backoffs in force are of the present generation; no block was
        ever put in force in a later one. */
    ghost predicate Current()
      reads this, backoffs
    {
      && (forall ack :: ack in acks ==> ack.generation == ackGeneration && Earned(ack))
      && (forall ack :: ack in Sending(active) ==> Earned(ack))
      && (forall id :: id in backoffs.table ==> (ackGeneration, backoffs.table[id]) in installed)
      && (forall p :: p in installed ==> p.0 <= ackGeneration)
      && (authoritative && !closed ==> ackGeneration <= control)
      && (closed ==> failed && acks == [] && backoffs.table == map[])
    }

    ghost predicate Valid()
      reads this, backoffs, submissions, submissions.nodes
    {
      backoffs.Valid() && submissions.Valid() && Counted() && Current() && nextSubmission < WORD
    }

    ghost function Shown(): Face
      reads this, backoffs
    {
      Face(backoffs.table, backoffs.bytes, acks, ackCount, ackBytes, ackGeneration)
    }

    /** The next submission id is the first free one after the last, past zero when it wraps. */
    method TakeId() returns (id: nat)
      requires nextSubmission < WORD && exists k :: 0 < k < WORD && k !in submissions.table
      modifies this`nextSubmission
      ensures 0 < id < WORD && id !in submissions.table && nextSubmission == id
      ensures exists d :: 0 < d <= WORD && id == Later(old(nextSubmission), d)
                && forall e :: 0 < e < d ==> Taken(submissions.table, Later(old(nextSubmission), e))
    {
      ghost var free :| 0 < free < WORD && free !in submissions.table;
      ghost var start := nextSubmission;
      ghost var left := if free > start then free - start else free - start + WORD;
      ghost var d := 1;
      assert Later(start, left) == free;
      LaterByOne(start, 0);
      hide Later;
      nextSubmission := if nextSubmission == WORD - 1 then 0 else nextSubmission + 1;
      while nextSubmission == 0 || nextSubmission in submissions.table
        invariant 0 < d <= left && nextSubmission == Later(start, d) < WORD
        invariant forall e :: 0 < e < d ==> Taken(submissions.table, Later(start, e))
        decreases left - d
      {
        LaterByOne(start, d);
        nextSubmission := if nextSubmission == WORD - 1 then 0 else nextSubmission + 1;
        d := d + 1;
      }
      return nextSubmission;
    }

    /** Registers a request under a new id, unless the session has failed or a backoff in force
        covers its object; then the caller waits. */
    method Register(pg: Pg, object_: HObject) returns (node: Submission?)
      requires Valid() && exists k :: 0 < k < WORD && k !in submissions.table
      modifies this`nextSubmission, submissions, submissions.nodes
      ensures Valid() && fresh(submissions.nodes - old(submissions.nodes))
      ensures node != null <==>
              !failed && !exists b ::
                  b in backoffs.table && backoffs.table[b].pg == pg && Blocks(backoffs.table[b], object_)
      ensures node != null ==>
                && 0 < nextSubmission < WORD && nextSubmission !in old(submissions.table)
                && submissions.table == old(submissions.table)[nextSubmission := node]
                && node.pg == pg && node.object_ == object_ && !node.resend
      ensures node == null ==> submissions.table == old(submissions.table)
    {
      hide Backoffs.Valid, Submissions.Valid, Blocks;
      node := null;
      if failed { return; }
      var blocked := backoffs.IsBlocked(pg, object_);
      if blocked { return; }
      var id := TakeId();
      node := submissions.Add(id, pg, object_);
    }

    /** A request is over; it is sent again exactly if an end of a backoff wants it and its caller
        still does. */
    method Finish(id: nat, ended: bool) returns (again: bool)
      requires Valid() && id in submissions.table
      modifies submissions, submissions.nodes
      ensures Valid() && submissions.table == old(submissions.table) - {id}
      ensures again <==> old(submissions.table[id].resend) && !ended
    {
      hide Backoffs.Valid, Submissions.Valid;
      var node := submissions.table[id];
      again := node.resend && !ended;
      submissions.Remove(id);
    }

    // -------------------------------------------------------------- acknowledgments

    /** Queues the acknowledgment of a block in force, if the reserve has room for it. */
    method Enqueue(b: Backoff, bytes: nat, transport: nat) returns (ok: bool)
      requires Counted() && Current() && (ackGeneration, b) in installed && !closed
      requires authoritative ==> transport == ackGeneration
      modifies this`acks, this`ackCount, this`ackBytes
      ensures Counted() && Current()
      ensures ok <==> old(ackCount) < MAX_ACKS && old(ackBytes) + bytes <= MAX_ACK_BYTES
      ensures acks == if ok then old(acks) + [Ack(b, bytes, ackGeneration, transport)] else old(acks)
    {
      if ackCount >= MAX_ACKS || bytes > MAX_ACK_BYTES - ackBytes { return false; }
      var ack := Ack(b, bytes, ackGeneration, transport);
      AckBytesMore(acks, ack);
      acks := acks + [ack];
      ackCount := ackCount + 1;
      ackBytes := ackBytes + bytes;
      return true;
    }

    /** The sender takes the oldest acknowledgment; it stays counted. */
    method TakeAck() returns (ack: Option<Ack>)
      requires Valid() && active == None
      modifies this`acks, this`active
      ensures Valid() && ack == active
      ensures if old(acks) == [] then ack == None && acks == [] else ack == Some(old(acks)[0]) && acks == old(acks)[1..]
    {
      hide Backoffs.Valid, Submissions.Valid;
      if acks == [] { return None; }
      AckBytesHead(acks);
      active := Some(acks[0]);
      assert acks[0] in acks;
      acks := acks[1..];
      return active;
    }

    /** It has been sent or not; a failure is reported exactly if no reset came in between. */
    method AckDone(ok: bool) returns (report: Option<Ack>)
      requires Valid() && active.Some?
      modifies this`active, this`ackCount, this`ackBytes
      ensures Valid() && active == None
      ensures report == if !ok && old(active).value.generation == ackGeneration then old(active) else None
      ensures report.Some? ==> Earned(report.value)
    {
      hide Backoffs.Valid, Submissions.Valid;
      var ack := active.value;
      assert ack in Sending(active);
      active := None;
      ackCount := ackCount - 1;
      ackBytes := ackBytes - ack.bytes;
      return if !ok && ack.generation == ackGeneration then Some(ack) else None;
    }

    /** A new generation: the queue is emptied and uncounted, the acknowledgment being sent is not. */
    method ResetAcks(generation: nat)
      requires Counted()
      modifies this`acks, this`ackCount, this`ackBytes, this`ackGeneration
      ensures Counted() && acks == [] && ackGeneration == generation
      ensures ackCount == |Sending(active)| && ackBytes == AckBytes(Sending(active))
    {
      hide AckBytes;
      ackGeneration := generation;
      ghost var bytes := ackBytes;
      AckBytesNone();
      for i := 0 to |acks|
        invariant acks == old(acks) && ackGeneration == generation && ackCount == |acks| - i + |Sending(active)|
        invariant AckBytes(acks[..i]) <= AckBytes(acks) && ackBytes == bytes - AckBytes(acks[..i])
      {
        AckBytesMore(acks[..i], acks[i]);
        assert acks[..i] + [acks[i]] == acks[..i + 1];
        AckBytesPrefix(acks, i + 1);
        ackCount := ackCount - 1;
        ackBytes := ackBytes - acks[i].bytes;
      }
      assert acks[..|acks|] == acks;
      acks := [];
    }

    // -------------------------------------------------------------- the receive loop

    /** Follows the transport to its control generation, or starts one of its own: whatever was in
        force or queued in the last one is dropped. */
    method Reconcile(generation: nat) returns (changed: bool)
      requires Valid() && !closed && control <= generation
      modifies this, backoffs
      ensures Valid() && !closed && control == generation && active == old(active) && failed == old(failed)
      ensures changed <==> !authoritative || generation != old(ackGeneration)
      ensures ackGeneration == if authoritative then generation else old(ackGeneration) + 1
      ensures Shown() == if changed then Renewed(ackGeneration, Sending(active)) else old(Shown())
      ensures installed == old(installed) && nextSubmission == old(nextSubmission)
    {
      hide Backoffs.Valid, Submissions.Valid, AckBytes;
      control := generation;
      if authoritative && generation == ackGeneration { return false; }
      ResetAcks(if authoritative then generation else ackGeneration + 1);
      backoffs.Clear();
      return true;
    }

    /** A block is put in force and then acknowledged, if both fit. */
    method Install(b: Backoff, ackSize: nat, transport: nat) returns (ok: bool)
      requires Valid() && !closed && (authoritative ==> transport == ackGeneration)
      modifies this, backoffs
      ensures Valid() && !closed && control == old(control) && active == old(active) && failed == old(failed)
      ensures ackGeneration == old(ackGeneration) && nextSubmission == old(nextSubmission)
      ensures var fits := old(backoffs.Fits(b));
              var room := old(ackCount) < MAX_ACKS && old(ackBytes) + ackSize <= MAX_ACK_BYTES;
              && (ok <==> fits && room)
              && backoffs.table == (if fits then old(backoffs.table)[b.id := b] else old(backoffs.table))
              && acks == (if ok then old(acks) + [Ack(b, ackSize, ackGeneration, transport)] else old(acks))
              && installed == (if fits then old(installed) + {(ackGeneration, b)} else old(installed))
    {
      hide Backoffs.Valid, Backoffs.Fits, Submissions.Valid, AckBytes;
      ok := backoffs.Add(b);
      if ok {
        installed := installed + {(ackGeneration, b)};
        ok := Enqueue(b, ackSize, transport);
      }
    }

    /** Lifts a backoff: exactly the registered requests in its range are marked. */
    method Lift(id: nat)
      requires Valid()
      modifies backoffs, submissions.nodes
      ensures Valid() && backoffs.table == old(backoffs.table) - {id} && submissions.table == old(submissions.table)
      ensures forall k :: k in submissions.table ==>
                submissions.table[k] in submissions.nodes &&
                submissions.table[k].resend ==
                  (old(submissions.table[k].resend)
                   || (id in old(backoffs.table) && submissions.table[k].pg == old(backoffs.table)[id].pg
                       && Blocks(old(backoffs.table)[id], submissions.table[k].object_)))
    {
      hide Backoffs.Valid, Submissions.Valid, Blocks;
      AllWanted();
      var removed := backoffs.Remove(id);
      if removed != [] { submissions.MarkResend(removed[0]); }
    }

    method Fail()
      requires Valid()
      modifies this`failed
      ensures Valid() && failed && Shown() == old(Shown())
    {
      hide Backoffs.Valid, Submissions.Valid, AckBytes;
      failed := true;
    }

    // -------------------------------------------------------------- a range of one object

    /** A block of one object holds back exactly the requests for that object. */
    lemma OneObject(b: Backoff, o: HObject)
      requires Compare(b.begin, b.end) == 0
      ensures Blocks(b, o) <==> Compare(o, b.begin) == 0
    {
      RangeIs(b.begin, b.end, o, o, o);
    }

    method Act(action: Action)
      requires Valid() && !closed && Onwards(control, [action])
      modifies this, backoffs, submissions.nodes
      ensures Valid() && !closed && control <= Latest(old(control), action)
      ensures old(ackGeneration) <= ackGeneration && submissions.table == old(submissions.table)
      ensures ackGeneration == old(ackGeneration) ==>
                forall id :: !Naming(action, id) ==> Same(old(backoffs.table), backoffs.table, id)
    {
      hide Valid, AllMarked, Wanted, NewIn, FitsIn, AcksAfter, Follows;
      match action {
        case Ordering(order, transport, now) => {
          Behind();
          ghost var mid := HandleBackoff(order, transport, now);
        }
        case Resetting(generation) => {
          var changed := HandleReset(generation);
        }
        case Failing(ack, generation, again) => { HandleAckFailure(ack, generation, again); }
        case Taking => {
          if active == None {
            var ack := TakeAck();
          }
        }
        case Done(ok) => {
          if active.Some? {
            var report := AckDone(ok);
          }
        }
      }
    }

    /** Whatever the receive loop and the sender of acknowledgments do: while the generation lasts,
        a backoff stays in force, as it is, until an order names its id. */
    method Serve(actions: seq<Action>)
      requires Valid() && !closed && Onwards(control, actions)
      modifies this, backoffs, submissions.nodes
      ensures Valid() && !closed && old(ackGeneration) <= ackGeneration && submissions.table == old(submissions.table)
      ensures ackGeneration == old(ackGeneration) ==>
                forall id :: !Names(actions, id) ==> Same(old(backoffs.table), backoffs.table, id)
    {
      hide Valid;
      hide AllMarked, Wanted, NewIn, FitsIn, AcksAfter;
      ghost var before, start := backoffs.table, ackGeneration;
      for i := 0 to |actions|
        invariant Valid() && !closed && start <= ackGeneration && submissions.table == old(submissions.table)
        invariant Onwards(control, actions[i..])
        invariant ackGeneration == start ==>
                    forall id :: !Names(actions[..i], id) ==> Same(before, backoffs.table, id)
      {
        assert actions[i..][0] == actions[i] && actions[i..][1..] == actions[i + 1..];
        assert forall id :: Names(actions[..i + 1], id) <==> Names(actions[..i], id) || Naming(actions[i], id) by {
          NamesMore(actions, i);
        }
        ghost var latest := Latest(control, actions[i]);
        Act(actions[i]);
        OnwardsFrom(control, latest, actions[i + 1..]);
      }
      assert actions[..|actions|] == actions;
    }

    /** Once a block of one object is in force, the object is held back until the block's id is
        named again or its generation ends, whatever else happens meanwhile. */
    method HoldsBack(b: Backoff, ackSize: nat, transport: nat, now: Reads, meanwhile: seq<Action>, o: HObject)
      returns (ghost installed: bool, node: Submission?, ghost generation: nat)
      requires Valid() && !closed && Onward(control, now) && Onwards(now.fourth, meanwhile)
      requires exists k :: 0 < k < WORD && k !in submissions.table
      requires Compare(b.begin, b.end) == 0 && Compare(o, b.begin) == 0
      modifies this, backoffs, submissions, submissions.nodes
      ensures Valid()
      ensures (authoritative ==> old(ackGeneration) == transport == now.third) ==>
                Heard(transport, now) && Timely(transport, now) && old(backoffs.Fits(b)) ==> installed
      ensures installed && generation == ackGeneration && !Names(meanwhile, b.id) ==> node == null
    {
      hide Valid, AllMarked, Wanted, NewIn, FitsIn, AcksAfter, Blocks;
      ghost var mid := HandleBackoff(Begin(b, ackSize), transport, now);
      installed := b.id in backoffs.table && backoffs.table[b.id] == b;
      generation := ackGeneration;
      OnwardsFrom(control, now.fourth, meanwhile);
      Serve(meanwhile);
      OneObject(b, o);
      node := Register(b.pg, o);
    }

    /** And its end sends again exactly the registered requests of its group for that object, beside
        those that were to be sent again already. */
    method LetsGo(b: Backoff, transport: nat, now: Reads)
      requires Valid() && !closed && Onward(control, now) && b.id in backoffs.table && backoffs.table[b.id] == b
      requires Compare(b.begin, b.end) == 0 && transport != 0 && transport == now.arrived == now.second
      requires authoritative ==> ackGeneration == transport
      modifies this, backoffs, submissions.nodes
      ensures Valid() && b.id !in backoffs.table && submissions.table == old(submissions.table)
      ensures forall k :: k in submissions.table && k in old(Wanted()) ==>
                submissions.table[k].resend ==
                  (old(Wanted())[k]
                   || (submissions.table[k].pg == b.pg && Compare(submissions.table[k].object_, b.begin) == 0))
    {
      hide Valid, Wanted, NewIn, FitsIn, AcksAfter, Blocks;
      forall o ensures Blocks(b, o) <==> Compare(o, b.begin) == 0 { OneObject(b, o); }
      ghost var mid := HandleBackoff(End(b.id), transport, now);
    }

    lemma Behind()
      requires Valid() && !closed
      ensures authoritative ==> ackGeneration <= control
    {
    }

    /** A reset of the connection. */
    method HandleReset(generation: nat) returns (changed: bool)
      requires Valid() && !closed && control <= generation
      modifies this, backoffs
      ensures Valid() && !closed && failed == old(failed) && installed == old(installed)
      ensures old(ackGeneration) <= ackGeneration && control == generation
      ensures changed ==> ackGeneration != old(ackGeneration)
      ensures changed <==> !authoritative || generation != old(ackGeneration)
      ensures changed ==> acks == [] && backoffs.table == map[]
      ensures !changed ==> acks == old(acks) && backoffs.table == old(backoffs.table)
    {
      hide Backoffs.Valid, Submissions.Valid, AckBytes, Counted, Current;
      Behind();
      changed := Reconcile(generation);
    }

    /** A failed acknowledgment fails the session, unless its generation is over. */
    method HandleAckFailure(ack: Ack, generation: nat, again: nat)
      requires Valid() && !closed && control <= generation <= again
      modifies this, backoffs
      ensures Valid() && !closed && installed == old(installed)
      ensures old(ackGeneration) <= ackGeneration && control <= again
      ensures var current := ack.generation == ackGeneration && (authoritative ==> ack.transport == again);
              failed == (old(failed) || current)
      ensures ackGeneration == if authoritative then generation else old(ackGeneration)
      ensures ackGeneration == old(ackGeneration) ==> acks == old(acks) && backoffs.table == old(backoffs.table)
      ensures ackGeneration != old(ackGeneration) ==> acks == [] && backoffs.table == map[]
    {
      hide Backoffs.Valid, Submissions.Valid, AckBytes, Counted, Current;
      Behind();
      if authoritative {
        var _ := Reconcile(generation);
      }
      if ack.generation == ackGeneration && (!authoritative || ack.transport == again) { Fail(); }
    }

    /** A block and its acknowledgment both fit. */
    ghost predicate Admits(f: Face, order: Order)
      requires order.Begin?
    {
      && FitsIn(f.table, f.bytes, backoffs.maxCount, backoffs.maxBytes, order.backoff)
      && f.ackCount < MAX_ACKS && f.ackBytes + order.ackSize <= MAX_ACK_BYTES
    }

    /** The order can be followed. */
    ghost predicate Follows(f: Face, order: Order) { order.End? || (order.Begin? && Admits(f, order)) }

    /** The backoffs in force after an order; a block stays in force even when its
        acknowledgment does not fit. */
    ghost function TableAfter(f: Face, order: Order): map<nat, Backoff> {
      match order
      case Garbled => f.table
      case Begin(b, _) =>
        if FitsIn(f.table, f.bytes, backoffs.maxCount, backoffs.maxBytes, b) then f.table[b.id := b] else f.table
      case End(id) => f.table - {id}
    }

    /** The queue after an order: one more acknowledgment exactly if a block was followed. */
    ghost function AcksAfter(f: Face, order: Order, transport: nat): seq<Ack> {
      if order.Begin? && Admits(f, order) then f.acks + [Ack(order.backoff, order.ackSize, f.generation, transport)]
      else f.acks
    }

    /** The block an order puts in force, with the generation it does so in. */
    ghost function NewIn(f: Face, order: Order): set<(nat, Backoff)> {
      if order.Begin? && FitsIn(f.table, f.bytes, backoffs.maxCount, backoffs.maxBytes, order.backoff)
      then {(f.generation, order.backoff)} else {}
    }

    ghost predicate Marked(f: Face, order: Order, id: nat, was: bool)
      reads submissions, submissions.nodes
      requires id in submissions.table && submissions.table[id] in submissions.nodes
    {
      var node := submissions.table[id];
      node.resend == (was || (order.End? && order.id in f.table
                              && node.pg == f.table[order.id].pg && Blocks(f.table[order.id], node.object_)))
    }

    /** What one order does in the present generation; one that cannot be followed is an error. */
    method Follow(order: Order, transport: nat) returns (ok: bool)
      requires Valid() && !closed && (authoritative ==> transport == ackGeneration)
      modifies this, backoffs, submissions.nodes
      ensures Valid() && !closed && control == old(control) && failed == old(failed) && active == old(active)
      ensures ackGeneration == old(ackGeneration) && submissions.table == old(submissions.table)
      ensures ok <==> Follows(old(Shown()), order)
      ensures backoffs.table == TableAfter(old(Shown()), order) && acks == AcksAfter(old(Shown()), order, transport)
      ensures AllMarked(old(Shown()), order, old(Wanted())) && installed == old(installed) + NewIn(old(Shown()), order)
    {
      hide Backoffs.Valid, Submissions.Valid, FitsIn, AckBytes, Blocks, Counted, Current;
      AllWanted();
      match order {
        case Garbled => { return false; }
        case Begin(b, ackSize) => { ok := Install(b, ackSize, transport); }
        case End(id) => { Lift(id); return true; }
      }
    }

    /** An error fails the session, unless the generation of the message ends meanwhile. */
    method Conclude(ok: bool, timely: bool, transport: nat, now: Reads)
      requires Valid() && !closed && control <= now.third <= now.fourth
      modifies this, backoffs
      ensures Valid() && !closed && active == old(active) && installed == old(installed) && control <= now.third
      ensures ok || !authoritative ==> Shown() == old(Shown())
      ensures !ok && authoritative ==>
                Shown() == if now.third != old(ackGeneration) then Renewed(now.third, Sending(active)) else old(Shown())
      ensures failed == (old(failed) || (!ok && if authoritative then transport == now.fourth else timely))
    {
      hide Backoffs.Valid, Submissions.Valid, AckBytes, Counted, Current;
      var current := timely;
      if !ok && authoritative {
        var _ := Reconcile(now.third);
        current := transport == now.fourth;
      }
      if current && !ok { Fail(); }
    }

    /** An order of the present generation is followed, or fails the session unless that
        generation ends meanwhile; then nothing of it stays in force. */
    method Obey(order: Order, transport: nat, now: Reads)
      requires Valid() && !closed && (authoritative ==> transport == ackGeneration)
      requires control <= now.third <= now.fourth
      modifies this, backoffs, submissions.nodes
      ensures Valid() && !closed && active == old(active) && submissions.table == old(submissions.table)
      ensures control <= now.third && old(ackGeneration) <= ackGeneration
      ensures failed == (old(failed) || (!Follows(old(Shown()), order) && (authoritative ==> transport == now.fourth)))
      ensures Ends(old(Shown()), order, transport, now)
      ensures AllMarked(old(Shown()), order, old(Wanted())) && installed == old(installed) + NewIn(old(Shown()), order)
    {
      hide Backoffs.Valid, Submissions.Valid, FitsIn, AckBytes, Blocks, Counted, Current, AcksAfter, TableAfter,
          Follows, Marked, NewIn;
      Behind();
      var ok := Follow(order, transport);
      Conclude(ok, true, transport, now);
    }

    /** Where an order that is followed in a generation leaves the session. */
    ghost predicate Ends(f: Face, order: Order, transport: nat, now: Reads)
      reads this, backoffs
    {
      if !Follows(f, order) && authoritative && now.third != f.generation
      then Shown() == Renewed(now.third, Sending(active))
      else
        && ackGeneration == f.generation && backoffs.table == TableAfter(f, order)
        && acks == AcksAfter(f, order, transport)
    }

    /** The marks of the registered requests. */
    ghost function Wanted(): map<nat, bool>
      reads submissions, submissions.nodes
    {
      map k | k in submissions.table && submissions.table[k] in submissions.nodes :: submissions.table[k].resend
    }

    lemma AllWanted()
      requires Valid()
      ensures forall k :: k in submissions.table ==> submissions.table[k] in submissions.nodes
    {
      hide Backoffs.Valid, Counted, Current;
    }

    /** Beside the marks there were, exactly the requests in the range of a backoff that ended. */
    ghost predicate AllMarked(f: Face, order: Order, was: map<nat, bool>)
      reads submissions, submissions.nodes
    {
      && was.Keys == submissions.table.Keys
      && forall k :: k in submissions.table ==> submissions.table[k] in submissions.nodes && Marked(f, order, k, was[k])
    }

    /** A backoff message. One that comes with another control generation than the transport's is
        dropped. One whose generation is over by the time the lock is held has no effect of its
        own. The rest is followed, in a state that holds nothing of an earlier generation. */
    method HandleBackoff(order: Order, transport: nat, now: Reads) returns (ghost mid: Face)
      requires Valid() && !closed && Onward(control, now)
      modifies this, backoffs, submissions.nodes
      ensures Valid() && !closed && active == old(active) && submissions.table == old(submissions.table)
      ensures old(ackGeneration) <= ackGeneration && control <= now.fourth
      ensures !Heard(transport, now) ==> Shown() == old(Shown())
      ensures Heard(transport, now) && !Timely(transport, now) ==>
                Kept(old(Shown())) && ackGeneration == if order.Garbled? then now.third else now.first
      ensures !Heard(transport, now) || !Timely(transport, now) ==>
                failed == old(failed) && Wanted() == old(Wanted()) && installed == old(installed)
      ensures Heard(transport, now) && Timely(transport, now) ==>
                && mid == (if authoritative && transport != old(ackGeneration)
                           then Renewed(transport, Sending(active)) else old(Shown()))
                && failed == (old(failed) || (!Follows(mid, order) && (authoritative ==> transport == now.fourth)))
                && Ends(mid, order, transport, now) && AllMarked(mid, order, old(Wanted()))
                && installed == old(installed) + NewIn(mid, order)
    {
      hide Backoffs.Valid, Submissions.Valid, FitsIn, AckBytes, Blocks, Counted, Current;
      Behind();
      hide AcksAfter, TableAfter, Follows, Marked, AllMarked, Ends, Wanted, NewIn;
      mid := Shown();
      if !Heard(transport, now) { return; }
      if authoritative {
        var _ := Reconcile(now.first);
      }
      mid := Shown();
      if Timely(transport, now) {
        Obey(order, transport, now);
      } else {
        Conclude(!order.Garbled?, false, transport, now);
      }
    }

    /** The message comes with the transport's control generation. */
    predicate Heard(transport: nat, now: Reads) {
      !authoritative || (transport != 0 && transport == now.arrived)
    }

    /** So it still is once the lock is held. */
    predicate Timely(transport: nat, now: Reads) { !authoritative || transport == now.second }

    /** The queue and the backoffs in force are as before, or their generation is over. */
    ghost predicate Kept(f: Face)
      reads this, backoffs
    {
      if ackGeneration == f.generation then acks == f.acks && backoffs.table == f.table
      else acks == [] && backoffs.table == map[]
    }

    /** The receive loop ends: nothing is in force, nothing queued, and no request is registered
        from now on. The acknowledgment being sent is no longer of the present generation. */
    method Close()
      requires Valid() && !closed
      modifies this, backoffs
      ensures Valid() && closed && failed && acks == [] && backoffs.table == map[] && backoffs.bytes == 0
      ensures active == old(active) && (active.Some? ==> active.value.generation < ackGeneration)
      ensures installed == old(installed)
    {
      hide Backoffs.Valid, Submissions.Valid, AckBytes;
      assert active.Some? ==> active.value in Sending(active);
      ResetAcks(ackGeneration + 1);
      failed := true;
      backoffs.Clear();
      closed := true;
    }
  }
}
