/** Game objects and their components. A `std::type_index` becomes a
    TypeId naming the component or message types the engine dispatches on,
    a receiver callback becomes an opaque Receiver identity, and a pointer
    is a Dafny reference. */
module Entities {
  import opened Seqs

  /** The `std::type_index` values the engine compares against. */
  datatype TypeId =
    | SpatialComponentT
    | CameraComponentT
    | CameraControllerT
    | PlayerControllerT
    | ImGuiComponentT
    | PathfindingComponentT
    | GroundComponentT
    | BounderComponentT
    | SphereBounderComponentT
    | BlastComponentT
    | ObjectInitMessageT
    | ComponentAddedMessageT
    | ComponentRemovedMessageT
    | OtherT(id: nat)

  /** A `std::function<void (const Message &)>` registered as a receiver. */
  type Receiver = nat

  /** A component: the object it belongs to (`m_gameObject`, fixed at
      construction) and its dynamic type. */
  class Component {
    const owner: GameObject
    const kind: TypeId

    constructor (owner: GameObject, kind: TypeId)
      ensures this.owner == owner && this.kind == kind
    {
      this.owner := owner;
      this.kind := kind;
    }
  }

  /** The body of a message. */
  datatype Payload =
    | ObjectInit
    | ComponentAdded(added: Component, addedAs: TypeId)
    | ComponentRemoved(removed: Component, removedAs: TypeId)
    | Data(id: nat)

  /** An entry of the scene's message queue: the object it is addressed
      to (null for scene-wide only), the message type and its body. */
  datatype Message = Message(target: GameObject?, msgType: TypeId, payload: Payload)

  /** What a game object records about its components. */
  datatype ObjectState = ObjectState(
    allComponents: seq<Component>,
    compsByCompT: map<TypeId, seq<Component>>,
    spatial: Component?)

  /** The effect of `addComponent(c, t)`: c joins the list of all
      components and the list for t, and becomes the spatial component
      exactly when t is SpatialComponent. */
  function Attach(st: ObjectState, c: Component, t: TypeId): (r: ObjectState)
    ensures r.allComponents == st.allComponents + [c]
    ensures Lookup(r.compsByCompT, t) == Lookup(st.compsByCompT, t) + [c]
    ensures forall k :: k != t ==> Lookup(r.compsByCompT, k) == Lookup(st.compsByCompT, k)
    ensures r.compsByCompT.Keys == st.compsByCompT.Keys + {t}
    ensures t == SpatialComponentT ==> r.spatial == c
    ensures t != SpatialComponentT ==> r.spatial == st.spatial
  {
    ObjectState(st.allComponents + [c], Push(st.compsByCompT, t, c),
      if t == SpatialComponentT then c else st.spatial)
  }

  /** The effect of `removeComponent(c, t)`: the first occurrence of c
      leaves the list of all components, the last occurrence leaves the
      list for t when there is such a list, and the spatial component is
      cleared when it is c. */
  function Detach(st: ObjectState, c: Component, t: TypeId): ObjectState
  {
    ObjectState(
      RemoveFirst(st.allComponents, c),
      if t in st.compsByCompT then st.compsByCompT[t := RemoveLast(st.compsByCompT[t], c)]
      else st.compsByCompT,
      if st.spatial == c then null else st.spatial)
  }

  /** Detaching removes exactly one copy of c from the list of all
      components and from the list for t (when there is one), leaves the
      other lists alone, and clears the spatial component if it was c. */
  lemma DetachRemovesOneCopy(st: ObjectState, c: Component, t: TypeId)
    ensures Detach(st, c, t).compsByCompT.Keys == st.compsByCompT.Keys
    ensures multiset(Detach(st, c, t).allComponents) == multiset(st.allComponents) - multiset{c}
    ensures t in st.compsByCompT ==>
      multiset(Detach(st, c, t).compsByCompT[t]) == multiset(st.compsByCompT[t]) - multiset{c}
    ensures forall k :: k != t && k in st.compsByCompT ==> Detach(st, c, t).compsByCompT[k] == st.compsByCompT[k]
    ensures Detach(st, c, t).spatial == if st.spatial == c then null else st.spatial
  {
    RemoveOneCopy(st.allComponents, c);
    RemoveOneCopy(Lookup(st.compsByCompT, t), c);
  }

  /** Removing a component an object does not hold changes nothing. */
  lemma DetachAbsent(st: ObjectState, c: Component, t: TypeId)
    requires c !in st.allComponents && c !in Lookup(st.compsByCompT, t) && st.spatial != c
    ensures Detach(st, c, t) == st
  {
    RemoveOneCopy(st.allComponents, c);
    if t in st.compsByCompT {
      RemoveOneCopy(st.compsByCompT[t], c);
      assert st.compsByCompT[t := st.compsByCompT[t]] == st.compsByCompT;
    }
  }

  /** Adding a component the object did not hold and removing it again
      restores the list of all components and every per-type list; the map
      keeps an empty list for a type it did not have before, and the spatial
      component is cleared if c was added as one. */
  lemma AttachThenDetach(st: ObjectState, c: Component, t: TypeId)
    requires c !in st.allComponents && st.spatial != c
    ensures Detach(Attach(st, c, t), c, t).allComponents == st.allComponents
    ensures forall k :: Lookup(Detach(Attach(st, c, t), c, t).compsByCompT, k) == Lookup(st.compsByCompT, k)
    ensures t in st.compsByCompT ==> Detach(Attach(st, c, t), c, t).compsByCompT == st.compsByCompT
    ensures t !in st.compsByCompT ==> Detach(Attach(st, c, t), c, t).compsByCompT == st.compsByCompT[t := []]
    ensures Detach(Attach(st, c, t), c, t).spatial == if t == SpatialComponentT then null else st.spatial
  {
    var a := Attach(st, c, t);
    var r := Detach(a, c, t);
    AppendThenRemove(st.allComponents, c);
    PushThenRemoveLast(st.compsByCompT, t, c);
    assert r.compsByCompT == st.compsByCompT[t := Lookup(st.compsByCompT, t)];
    if t in st.compsByCompT {
      assert st.compsByCompT[t := st.compsByCompT[t]] == st.compsByCompT;
    }
  }

  /** `GameObject`: its components, by type and all together, and the
      spatial component. The receivers registered on an object are kept by
      the scene, keyed by the object. */
  class GameObject {
    var allComponents: seq<Component>
    var compsByCompT: map<TypeId, seq<Component>>
    var spatialComponent: Component?

    function State(): ObjectState
      reads this
    {
      ObjectState(allComponents, compsByCompT, spatialComponent)
    }

    constructor ()
      ensures State() == ObjectState([], map[], null)
    {
      allComponents := [];
      compsByCompT := map[];
      spatialComponent := null;
    }

    /** `GameObject::addComponent`. */
    method AddComponent(c: Component, t: TypeId)
      modifies this
      ensures State() == Attach(old(State()), c, t)
    {
      allComponents := allComponents + [c];
      compsByCompT := compsByCompT[t := Lookup(compsByCompT, t) + [c]];
      if t == SpatialComponentT {
        spatialComponent := c;
      }
    }

    /** `GameObject::removeComponent`: a forward search of all components
      and a backward search of the list for t, each erasing the match it
      finds. */
    method RemoveComponent(c: Component, t: TypeId)
      modifies this
      ensures State() == Detach(old(State()), c, t)
    {
      var found, i := FindFirst(allComponents, c);
      if found {
        allComponents := RemoveAt(allComponents, i);
      }
      if t in compsByCompT {
        var comps := compsByCompT[t];
        var foundT, j := FindLast(comps, c);
        if foundT {
          comps := RemoveAt(comps, j);
        }
        compsByCompT := compsByCompT[t := comps];
      }
      if spatialComponent == c {
        spatialComponent := null;
      }
    }
  }
}
