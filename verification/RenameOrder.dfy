/** Pool renames are applied in the order a Go map is walked, which is any order. What they
    give does not depend on it; whether they succeed does, exactly when names clash. */
module RenameOrder {
  import opened Common
  import opened Incremental
  import CopyOnWrite

  datatype Naming = Naming(pools: map<int, PoolInfo>, names: map<string, int>) | Failed

  function RenameOne(n: Naming, id: int, name: string): (r: Naming) {
    if n.Failed? || id !in n.pools || (name in n.names && n.names[name] != id) then Failed
    else Naming(n.pools[id := n.pools[id].(name := name)], (n.names - {n.pools[id].name})[name := id])
  }

  function RenameAll(n: Naming, renames: map<int, string>, order: seq<int>): (r: Naming)
    requires forall i :: 0 <= i < |order| ==> order[i] in renames
    decreases |order|
  {
    if order == [] then n else RenameAll(RenameOne(n, order[0], renames[order[0]]), renames, order[1..])
  }

  /** The renames, each once, in some order. */
  ghost predicate IsOrder(order: seq<int>, renames: map<int, string>) {
    && (forall i :: 0 <= i < |order| ==> order[i] in renames)
    && (forall id :: id in renames ==> id in order)
    && (forall i, j :: 0 <= i < j < |order| ==> order[i] != order[j])
  }

  lemma {:induction false} FailedStays(renames: map<int, string>, order: seq<int>)
    requires forall i :: 0 <= i < |order| ==> order[i] in renames
    ensures RenameAll(Failed, renames, order) == Failed
    decreases |order|
  {
    if order != [] { FailedStays(renames, order[1..]); }
  }

  /** Names that the renames still to come will not find taken. */
  ghost predicate Open(names: map<string, int>, renames: map<int, string>, order: seq<int>)
    requires forall i :: 0 <= i < |order| ==> order[i] in renames
  {
    forall i :: 0 <= i < |order| && renames[order[i]] in names ==> names[renames[order[i]]] == order[i]
  }

  lemma {:induction false} OpenSucceeds(n: Naming, renames: map<int, string>, order: seq<int>)
    requires n.Naming? && forall i :: 0 <= i < |order| ==> order[i] in renames && order[i] in n.pools
    requires forall i, j :: 0 <= i < j < |order| ==> renames[order[i]] != renames[order[j]]
    requires Open(n.names, renames, order)
    ensures RenameAll(n, renames, order).Naming?
    decreases |order|
  {
    if order != [] {
      var next := RenameOne(n, order[0], renames[order[0]]);
      forall i | 0 <= i < |order[1..]| && renames[order[1..][i]] in next.names
        ensures next.names[renames[order[1..][i]]] == order[1..][i]
      {
        assert order[1..][i] == order[i + 1];
      }
      OpenSucceeds(next, renames, order[1..]);
    }
  }

  /** A clash makes some order fail: the one that starts with the pools that clash. */
  lemma ClashFails(n: Naming, renames: map<int, string>, order: seq<int>)
    requires n.Naming? && IsOrder(order, renames) && order != [] && renames.Keys <= n.pools.Keys
    requires (renames[order[0]] in n.names && n.names[renames[order[0]]] != order[0])
             || (|order| > 1 && renames[order[0]] == renames[order[1]])
    ensures RenameAll(n, renames, order) == Failed
  {
    var first := RenameOne(n, order[0], renames[order[0]]);
    FailedStays(renames, order[1..]);
    if first.Naming? {
      assert RenameOne(first, order[1], renames[order[1]]) == Failed;
      assert order[1..][0] == order[1];
      FailedStays(renames, order[1..][1..]);
    }
  }

  lemma {:induction false} Enumerated(ids: set<int>) returns (order: seq<int>)
    ensures forall id :: id in order <==> id in ids
    ensures forall i, j :: 0 <= i < j < |order| ==> order[i] != order[j]
    decreases |ids|
  {
    if ids == {} { return []; }
    var id := Member(ids);
    var rest := Enumerated(ids - {id});
    order := [id] + rest;
    forall i, j | 0 <= i < j < |order| ensures order[i] != order[j] {
      assert order[j] == rest[j - 1] && rest[j - 1] in rest;
    }
  }

  /** An order of the renames that starts as told. */
  lemma OrderFrom(renames: map<int, string>, start: seq<int>) returns (order: seq<int>)
    requires forall i :: 0 <= i < |start| ==> start[i] in renames
    requires forall i, j :: 0 <= i < j < |start| ==> start[i] != start[j]
    ensures IsOrder(order, renames) && start <= order
  {
    var rest := Enumerated(renames.Keys - (set id | id in start));
    order := start + rest;
    forall i | 0 <= i < |order| ensures order[i] in renames {
      if i >= |start| { assert order[i] == rest[i - |start|] && order[i] in rest; }
    }
    forall i, j | 0 <= i < j < |order| ensures order[i] != order[j] {
      if i < |start| <= j { assert order[i] in start && order[j] == rest[j - |start|] && order[j] in rest; }
    }
  }

  /** Renaming known pools succeeds in every order exactly when no names clash. */
  lemma EveryOrderSucceeds(n: Naming, renames: map<int, string>)
    requires n.Naming? && renames.Keys <= n.pools.Keys
    ensures NoClash(n.names, renames) <==> forall order :: IsOrder(order, renames) ==>
              RenameAll(n, renames, order).Naming?
  {
    if NoClash(n.names, renames) {
      forall order | IsOrder(order, renames) ensures RenameAll(n, renames, order).Naming? {
        OpenSucceeds(n, renames, order);
      }
    } else {
      var order := ClashingOrder(n, renames);
    }
  }

  lemma ClashingOrder(n: Naming, renames: map<int, string>) returns (order: seq<int>)
    requires n.Naming? && renames.Keys <= n.pools.Keys && !NoClash(n.names, renames)
    ensures IsOrder(order, renames) && RenameAll(n, renames, order) == Failed
  {
    if id :| id in renames && renames[id] in n.names && n.names[renames[id]] != id {
      order := OrderFrom(renames, [id]);
      ClashFails(n, renames, order);
    } else {
      var id, other :| id in renames && other in renames && renames[id] == renames[other] && id != other;
      order := OrderFrom(renames, [id, other]);
      assert order[0] == id && order[1] == other;
      ClashFails(n, renames, order);
    }
  }

  lemma {:induction false} RenamesGive(n: Naming, renames: map<int, string>, order: seq<int>)
    requires n.Naming? && Linked(n.pools, n.names)
    requires forall i :: 0 <= i < |order| ==> order[i] in renames
    requires RenameAll(n, renames, order).Naming?
    ensures var r := RenameAll(n, renames, order);
            && Linked(r.pools, r.names) && r.pools.Keys == n.pools.Keys
            && forall id :: id in n.pools ==>
                 r.pools[id] == if id in order then n.pools[id].(name := renames[id]) else n.pools[id]
    decreases |order|
  {
    hide Linked;
    if order != [] {
      if RenameOne(n, order[0], renames[order[0]]).Failed? { FailedStays(renames, order[1..]); }
      CopyOnWrite.RenameKeeps(n.pools, n.names, order[0], renames[order[0]]);
      RenamesGive(RenameOne(n, order[0], renames[order[0]]), renames, order[1..]);
    }
  }

  /** All orders that succeed and leave no pool unnamed give the same pools and names. */
  lemma OrdersAgree(n: Naming, renames: map<int, string>, a: seq<int>, b: seq<int>)
    requires n.Naming? && Linked(n.pools, n.names) && IsOrder(a, renames) && IsOrder(b, renames)
    requires RenameAll(n, renames, a).Naming? && RenameAll(n, renames, b).Naming?
    requires AllNamed(RenameAll(n, renames, a).pools)
    ensures RenameAll(n, renames, a) == RenameAll(n, renames, b)
  {
    hide Linked, RenameAll;
    RenamesGive(n, renames, a);
    RenamesGive(n, renames, b);
    var r, q := RenameAll(n, renames, a), RenameAll(n, renames, b);
    forall id | id in n.pools ensures r.pools[id] == q.pools[id] {
      assert id in a <==> id in renames;
      assert id in b <==> id in renames;
    }
    assert r.pools == q.pools;
    NamedIsBijective(r.pools, r.names);
    NamedIsBijective(r.pools, q.names);
    NamesUnique(r.pools, r.names, q.names);
  }

  /** A chained rename: it succeeds in one order and fails in the other. */
  lemma ChainDependsOnOrder()
    ensures var n := Naming(map[1 := PoolInfo("a", 0), 2 := PoolInfo("b", 0)], map["a" := 1, "b" := 2]);
            var renames := map[1 := "b", 2 := "c"];
            RenameAll(n, renames, [2, 1]).Naming? && RenameAll(n, renames, [1, 2]).Failed?
  {
    var n := Naming(map[1 := PoolInfo("a", 0), 2 := PoolInfo("b", 0)], map["a" := 1, "b" := 2]);
    var renames := map[1 := "b", 2 := "c"];
    var first := RenameOne(n, 2, "c");
    assert first.Naming? && "b" !in first.names;
    assert RenameOne(first, 1, "b").Naming?;
    assert [2, 1][1..] == [1] && [1, 2][1..] == [2];
    assert RenameAll(n, renames, [2, 1]) == RenameAll(first, renames, [1]) ==
        RenameAll(RenameOne(first, 1, "b"), renames, [1][1..]);
    assert RenameOne(n, 1, "b") == Failed;
    assert RenameAll(n, renames, [1, 2]) == RenameAll(Failed, renames, [2]);
  }
}
