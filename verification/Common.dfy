/** What several parts share. */
module Common {

  const MAX_UINT64: nat := 0xffff_ffff_ffff_ffff

  datatype Option<+T> = None | Some(value: T)

  /** Some member of a set, as the next key of a map that is walked in any order. */
  method PickMember<T>(s: set<T>) returns (x: T)
    requires s != {}
    ensures x in s
  {
    x :| x in s;
  }

  lemma Member<T>(s: set<T>) returns (x: T)
    requires s != {}
    ensures x in s
  {
    x :| x in s;
  }
}
