/** Optional values, fallible results and storage that may fail, shared by every module. */
module Wrappers {
  datatype Option<+T> = None | Some(value: T)

  datatype Result<+T, +E> = Ok(value: T) | Err(error: E)

  /** Whether storage may fail. Everything holds either way: where it may not, nothing answers a failure. */
  const FAULTS: bool

  /** Whether this access to storage fails. */
  method Fails() returns (fails: bool)
    ensures fails ==> FAULTS
  {
    fails := *;
    fails := fails && FAULTS;
  }

  function Get<K, V>(m: map<K, V>, k: K): Option<V> {
    if k in m then Some(m[k]) else None
  }

  /** Maps that answer alike are equal. */
  lemma {:induction false} SameAnswers<K(!new), V(!new)>(a: map<K, V>, b: map<K, V>)
    requires forall k :: Get(a, k) == Get(b, k)
    ensures a == b
  {
    assert forall k :: k in a <==> Get(a, k).Some?;
    assert forall k :: k in b <==> Get(b, k).Some?;
    assert a.Keys == b.Keys;
  }
}
