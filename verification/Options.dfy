/** Helpers shared by the other modules. */
module Options {
  /** Python's `None` or a value. */
  datatype Option<+T> = None | Some(value: T)

  function Get<K, V>(m: map<K, V>, k: K): Option<V> {
    if k in m then Some(m[k]) else None
  }

  lemma SomeMember(s: set<int>)
    requires s != {}
    ensures exists n :: n in s
  {
    assert (forall n :: n !in s) ==> s == {};
  }

  /** There is always a number not used yet. */
  lemma {:induction false} FreshId(used: set<nat>) returns (id: nat)
    ensures forall k | k in used :: k < id
  {
    if used == {} {
      id := 0;
    } else {
      var k :| k in used;
      var rest := FreshId(used - {k});
      id := if k < rest then rest else k + 1;
      forall j | j in used ensures j < id {
        assert j == k || j in used - {k};
      }
    }
  }
}
