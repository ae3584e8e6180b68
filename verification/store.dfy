/**
  Lookup, removal and the caller-side write of the `inPlan` flag on the
  assumption cache. None of these create an entry.
 */
module AssumptionStore {
  import opened AssumptionTypes

  /** Exact-key lookup: the entry stored under `(space, hash)`, or nothing. */
  function GetAssumption(store: Store, space: int32, hash: int32): (r: Option<Assumption>)
    ensures r.Some? <==> Key(space, hash) in store
    ensures r.Some? ==> r.value == store[Key(space, hash)]
  {
    var key := Key(space, hash);
    if key in store then Some(store[key]) else None
  }

  /** The outcome of a removal: whether the key was present, and the cache afterwards. */
  datatype Dropped = Dropped(found: bool, store: Store)

  /**
    Removes the entry stored under `(space, hash)`. Reports whether there
    was one; the key is absent afterwards and every other entry is kept
    as it was.
   */
  function DropAssumption(store: Store, space: int32, hash: int32): (d: Dropped)
    ensures d.found <==> Key(space, hash) in store
    ensures Key(space, hash) !in d.store
    ensures d.store.Keys == store.Keys - {Key(space, hash)}
    ensures forall k :: k in d.store ==> d.store[k] == store[k]
    ensures !d.found ==> d.store == store
  {
    var key := Key(space, hash);
    Dropped(key in store, store - {key})
  }

  /**
    A caller setting `inPlan` through the pointer `get_assumption` hands
    out, once the calibration was put into a chosen plan. No such caller
    is part of this model; it is what makes the escalation branch of
    `do_assumption` reachable. A missing key yields no pointer, so nothing
    changes.
   */
  function MarkInPlan(store: Store, space: int32, hash: int32): (s: Store)
    ensures s.Keys == store.Keys
    ensures Key(space, hash) in store ==> s[Key(space, hash)] == store[Key(space, hash)].(inPlan := true)
    ensures forall k :: k in store && k != Key(space, hash) ==> s[k] == store[k]
  {
    var key := Key(space, hash);
    if key in store then store[key := store[key].(inPlan := true)] else store
  }

  /** After a removal, looking the key up finds nothing, and every other lookup answers as before. */
  lemma GetAfterDrop(store: Store, space: int32, hash: int32, other: Key)
    ensures GetAssumption(DropAssumption(store, space, hash).store, space, hash) == None
    ensures other != Key(space, hash) ==>
              GetAssumption(DropAssumption(store, space, hash).store, other.space, other.hash)
              == GetAssumption(store, other.space, other.hash)
  {
  }

  /** Removing twice is removing once, and the second removal reports that nothing was there. */
  lemma DropIsIdempotent(store: Store, space: int32, hash: int32)
    ensures var once := DropAssumption(store, space, hash).store;
            DropAssumption(once, space, hash) == Dropped(false, once)
  {
  }
}
