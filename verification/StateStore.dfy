/** The in-memory store that the alert detectors keep their state in between reports. */
module StateStore {
  import opened Basics

  predicate StartsWith(s: string, prefix: string) {
    prefix <= s
  }

  /** `m` without the keys that start with `prefix`. */
  function Pruned<V>(m: map<string, V>, prefix: string): map<string, V> {
    map k | k in m && !StartsWith(k, prefix) :: m[k]
  }

  class AlertStateStore<V> {
    var state: map<string, V>

    constructor ()
      ensures state == map[]
    {
      state := map[];
    }

    method Get(key: string) returns (value: Option<V>)
      ensures value == if key in state then Some(state[key]) else None
    {
      value := if key in state then Some(state[key]) else None;
    }

    method Set(key: string, value: V)
      modifies this
      ensures state == old(state)[key := value]
    {
      state := state[key := value];
    }

    method Delete(key: string) returns (existed: bool)
      modifies this
      ensures state == old(state) - {key} && existed == (key in old(state))
    {
      existed := key in state;
      state := state - {key};
    }

    /** Walks over the keys and deletes those that start with the prefix. */
    method PruneByPrefix(prefix: string)
      modifies this
      ensures state == Pruned(old(state), prefix)
    {
      var rest := state.Keys;
      while rest != {}
        invariant rest <= old(state).Keys && state.Keys <= old(state).Keys
        invariant forall k :: k in state ==> state[k] == old(state)[k]
        invariant forall k :: k in old(state) ==> (k in state <==> k in rest || !StartsWith(k, prefix))
        decreases |rest|
      {
        var key :| key in rest;
        rest := rest - {key};
        if StartsWith(key, prefix) {
          var _ := Delete(key);
        }
      }
    }

    method Clear()
      modifies this
      ensures state == map[]
    {
      state := map[];
    }
  }
}
