/** `Depot<T>`: a static store that takes ownership of objects. It maps
    each stored pointer to the `unique_ptr` owning that same pointer, so
    the store is modelled as the set of owned objects; handing ownership
    back out is returning the object. */
module Depots {

  /** `emplace`: a pointer already stored keeps its entry. */
  function Added(store: set<object>, v: object): (r: set<object>)
    ensures v in r && store <= r && r - {v} == store - {v}
  {
    store + {v}
  }

  /** `find` then `erase`: the owner of v, if stored, leaves the store. */
  function Removed(store: set<object>, v: object): (r: (set<object>, object?))
    ensures v in store ==> r.1 == v && r.0 == store - {v}
    ensures v !in store ==> r.1 == null && r.0 == store
  {
    if v in store then (store - {v}, v) else (store, null)
  }

  /** Adding a fresh object and removing it again restores the store and
      hands the object back. */
  lemma AddThenRemove(store: set<object>, v: object)
    requires v !in store
    ensures Removed(Added(store, v), v) == (store, v)
  {
    assert Added(store, v) - {v} == store;
  }

  class Depot {
    var store: set<object>

    constructor ()
      ensures store == {}
    {
      store := {};
    }

    /** add: the depot owns v; v is returned. */
    method Add(v: object) returns (r: object)
      modifies this
      ensures r == v && store == Added(old(store), v) && Has(v)
    {
      store := store + {v};
      r := v;
    }

    /** has: whether v is owned by the depot; reads only. */
    predicate Has(v: object)
      reads this
    {
      v in store
    }

    /** remove: ownership of v is handed back (null when v is not
        stored); other objects stay. */
    method Remove(v: object) returns (owner: object?)
      modifies this
      ensures (store, owner) == Removed(old(store), v) && !Has(v)
      ensures forall w :: w != v ==> (w in store <==> w in old(store))
    {
      if v !in store {
        return null;
      }
      owner := v;
      store := store - {v};
    }
  }
}
