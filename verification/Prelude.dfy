/** Types shared by every component. */
module Prelude {

  datatype Option<+T> = None | Some(value: T)

  datatype Result<+T> = Success(value: T) | Failure

  /**
   How one API call ends for its caller. `Lost` is the awkward case: the server
   has committed the write but the caller is handed an error.
   */
  datatype Outcome = Ok | Failed | Lost

  function Lookup<K, V>(m: map<K, V>, k: K): Option<V> {
    if k in m then Some(m[k]) else None
  }

  function Get<K, V>(m: map<K, V>, k: K, default: V): V {
    if k in m then m[k] else default
  }

  /** The outcome of the next call under a fault script; calls beyond its end succeed. */
  function NextOutcome(faults: seq<Outcome>): Outcome {
    if faults == [] then Ok else faults[0]
  }

  function RestOf(faults: seq<Outcome>): seq<Outcome> {
    if faults == [] then [] else faults[1..]
  }

  /** The outcome of the call `i` calls ahead. */
  function OutcomeAt(faults: seq<Outcome>, i: nat): Outcome {
    if i < |faults| then faults[i] else Ok
  }

  lemma LookupsDecide<K, V>(a: map<K, V>, b: map<K, V>)
    requires forall k :: Lookup(a, k) == Lookup(b, k)
    ensures a == b
  {
    forall k
      ensures k in a <==> k in b
      ensures k in a ==> a[k] == b[k]
    {
      assert Lookup(a, k) == Lookup(b, k);
    }
  }
}
