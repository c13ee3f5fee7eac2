/** Sums over the entries of a finite table, whatever order they are in. */
module Ledger {

  /** `order` lists the keys of the table, each once. */
  ghost predicate Lists(order: seq<nat>, m: map<nat, nat>) {
    && (forall k :: k in order <==> k in m)
    && (forall i, j :: 0 <= i < j < |order| ==> order[i] != order[j])
  }

  ghost predicate Within(order: seq<nat>, m: map<nat, nat>) { forall i :: 0 <= i < |order| ==> order[i] in m }

  ghost function Total(order: seq<nat>, m: map<nat, nat>): (sum: nat)
    requires Within(order, m)
  {
    if order == [] then 0 else m[order[0]] + Total(order[1..], m)
  }

  ghost function Dropped(order: seq<nat>, k: nat): (rest: seq<nat>) {
    if order == [] then [] else if order[0] == k then order[1..] else [order[0]] + Dropped(order[1..], k)
  }

  lemma {:induction false} SameTotal(order: seq<nat>, m: map<nat, nat>, n: map<nat, nat>)
    requires Within(order, m) && Within(order, n) && forall i :: 0 <= i < |order| ==> m[order[i]] == n[order[i]]
    ensures Total(order, m) == Total(order, n)
  {
    if order != [] { SameTotal(order[1..], m, n); }
  }

  lemma {:induction false} TotalMore(order: seq<nat>, m: map<nat, nat>, k: nat)
    requires Within(order, m) && k in m
    ensures Total(order + [k], m) == Total(order, m) + m[k]
  {
    if order == [] {
      assert order + [k] == [k] && Total([k][1..], m) == 0;
    } else {
      TotalMore(order[1..], m, k);
      assert (order + [k])[1..] == order[1..] + [k];
    }
  }

  /** Entering a new key. */
  lemma Entered(order: seq<nat>, m: map<nat, nat>, k: nat, v: nat)
    requires Lists(order, m) && k !in m
    ensures Lists(order + [k], m[k := v]) && Total(order + [k], m[k := v]) == Total(order, m) + v
  {
    TotalMore(order, m[k := v], k);
    SameTotal(order, m, m[k := v]);
  }

  lemma {:induction false} DroppedMembers(order: seq<nat>, k: nat, x: nat)
    requires forall i, j :: 0 <= i < j < |order| ==> order[i] != order[j]
    ensures x in Dropped(order, k) <==> x in order && x != k
    ensures forall i, j :: 0 <= i < j < |Dropped(order, k)| ==> Dropped(order, k)[i] != Dropped(order, k)[j]
  {
    if order != [] && order[0] != k {
      DroppedMembers(order[1..], k, x);
      DroppedMembers(order[1..], k, order[0]);
      var rest := Dropped(order[1..], k);
      forall j | 0 <= j < |rest| ensures rest[j] != order[0] { assert rest[j] in rest; }
    }
  }

  lemma {:induction false} DroppedTotal(order: seq<nat>, m: map<nat, nat>, k: nat)
    requires Within(order, m) && k in order && forall i, j :: 0 <= i < j < |order| ==> order[i] != order[j]
    ensures Within(Dropped(order, k), m) && Total(Dropped(order, k), m) == Total(order, m) - m[k]
  {
    if order[0] != k {
      DroppedTotal(order[1..], m, k);
      assert Dropped(order, k)[1..] == Dropped(order[1..], k);
    }
  }

  /** Striking a key out. */
  lemma Struck(order: seq<nat>, m: map<nat, nat>, k: nat)
    requires Lists(order, m) && k in m
    ensures Lists(Dropped(order, k), m - {k}) && m[k] <= Total(order, m)
    ensures Total(Dropped(order, k), m - {k}) == Total(order, m) - m[k]
  {
    forall x ensures x in Dropped(order, k) <==> x in m - {k} { DroppedMembers(order, k, x); }
    DroppedMembers(order, k, k);
    DroppedTotal(order, m, k);
    forall i | 0 <= i < |Dropped(order, k)|
      ensures Dropped(order, k)[i] in m - {k}
    {
      assert Dropped(order, k)[i] in Dropped(order, k);
    }
    SameTotal(Dropped(order, k), m, m - {k});
  }
}
