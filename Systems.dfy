/** The component systems that keep plain lists of the components they
    drive: `GameLogicSystem` (one list per component type), and
    `PathfindingSystem` and `PostCollisionSystem` (a list of every
    component added, plus the list of those of the system's own type).
    A `dynamic_cast` is a test of the component's dynamic type; a
    component's `update` call is recorded as the component being visited.
    Ownership (`unique_ptr`, `release`) is not modelled. */
module Systems {
  import opened Seqs
  import opened Entities

  /** The four static lists of GameLogicSystem. */
  datatype LogicLists = LogicLists(
    cameras: seq<Component>,
    cameraControllers: seq<Component>,
    playerControllers: seq<Component>,
    imguis: seq<Component>)

  /** The types GameLogicSystem::add accepts. */
  predicate IsLogicType(t: TypeId)
  {
    t == CameraComponentT || t == CameraControllerT || t == PlayerControllerT || t == ImGuiComponentT
  }

  /** The list kept for a type (empty for a type without one). */
  function ListOf(l: LogicLists, t: TypeId): seq<Component>
  {
    match t
    case CameraComponentT => l.cameras
    case CameraControllerT => l.cameraControllers
    case PlayerControllerT => l.playerControllers
    case ImGuiComponentT => l.imguis
    case _ => []
  }

  /** The lists with the one for type t replaced by s. */
  function WithList(l: LogicLists, t: TypeId, s: seq<Component>): (r: LogicLists)
    requires IsLogicType(t)
    ensures ListOf(r, t) == s
    ensures forall u :: u != t ==> ListOf(r, u) == ListOf(l, u)
  {
    match t
    case CameraComponentT => l.(cameras := s)
    case CameraControllerT => l.(cameraControllers := s)
    case PlayerControllerT => l.(playerControllers := s)
    case ImGuiComponentT => l.(imguis := s)
  }

  /** add: the component joins the list of its type; any other type fails
      the assertion and changes nothing. */
  function LogicAdded(l: LogicLists, c: Component): (r: LogicLists)
    ensures IsLogicType(c.kind) ==> ListOf(r, c.kind) == ListOf(l, c.kind) + [c]
    ensures forall u :: u != c.kind ==> ListOf(r, u) == ListOf(l, u)
    ensures !IsLogicType(c.kind) ==> r == l
  {
    if IsLogicType(c.kind) then WithList(l, c.kind, ListOf(l, c.kind) + [c]) else l
  }

  /** remove as the source writes it: branches for cameras, camera
      controllers and ImGui components only, so a player controller is
      never erased. */
  function LogicRemovedAsWritten(l: LogicLists, c: Component): (r: LogicLists)
  {
    if c.kind == CameraComponentT || c.kind == CameraControllerT || c.kind == ImGuiComponentT
    then WithList(l, c.kind, RemoveFirst(ListOf(l, c.kind), c))
    else l
  }

  /** remove as intended: the first occurrence leaves the list of its
      type, for every type add accepts. */
  function LogicRemoved(l: LogicLists, c: Component): (r: LogicLists)
    ensures IsLogicType(c.kind) ==> ListOf(r, c.kind) == RemoveFirst(ListOf(l, c.kind), c)
    ensures forall u :: u != c.kind ==> ListOf(r, u) == ListOf(l, u)
  {
    if IsLogicType(c.kind) then WithList(l, c.kind, RemoveFirst(ListOf(l, c.kind), c)) else l
  }

  /** The two removals agree on every type but PlayerControllerComponent. */
  lemma RemovalsAgree(l: LogicLists, c: Component)
    requires c.kind != PlayerControllerT
    ensures LogicRemovedAsWritten(l, c) == LogicRemoved(l, c)
  {
  }

  /** As written, a player controller that was added is still listed (and
      still updated) after it is removed. */
  lemma PlayerControllerNeverRemoved(l: LogicLists, c: Component)
    requires c.kind == PlayerControllerT
    ensures c in LogicRemovedAsWritten(LogicAdded(l, c), c).playerControllers
  {
    assert ListOf(LogicAdded(l, c), c.kind) == l.playerControllers + [c];
  }

  /** With the corrected removal, adding a component that is not listed
      and removing it again restores every list. */
  lemma LogicAddThenRemove(l: LogicLists, c: Component)
    requires c !in ListOf(l, c.kind)
    ensures LogicRemoved(LogicAdded(l, c), c) == l
  {
    if IsLogicType(c.kind) {
      AppendThenRemove(ListOf(l, c.kind), c);
      var r := LogicRemoved(LogicAdded(l, c), c);
      assert forall u :: ListOf(r, u) == ListOf(l, u);
      assert r.cameras == ListOf(r, CameraComponentT);
      assert r.cameraControllers == ListOf(r, CameraControllerT);
      assert r.playerControllers == ListOf(r, PlayerControllerT);
      assert r.imguis == ListOf(r, ImGuiComponentT);
    }
  }

  /** The order update visits the components in. */
  function LogicUpdateOrder(l: LogicLists): seq<Component>
  {
    l.imguis + l.playerControllers + l.cameraControllers + l.cameras
  }

  /** `for (auto & comp : list) comp->update(dt)`: every component of the
      list, in list order, appended to the calls made so far. */
  method VisitAll(calls0: seq<Component>, list: seq<Component>) returns (calls: seq<Component>)
    ensures calls == calls0 + list
  {
    calls := calls0;
    var i := 0;
    while i < |list|
      invariant i <= |list|
      invariant calls == calls0 + list[..i]
    {
      calls := calls + [list[i]];
      i := i + 1;
      assert list[..i] == list[..i - 1] + [list[i - 1]];
    }
    assert list[..|list|] == list;
  }

  class GameLogicSystem {
    var cameras: seq<Component>
    var cameraControllers: seq<Component>
    var playerControllers: seq<Component>
    var imguis: seq<Component>

    function State(): LogicLists
      reads this
    {
      LogicLists(cameras, cameraControllers, playerControllers, imguis)
    }

    constructor ()
      ensures State() == LogicLists([], [], [], [])
    {
      cameras, cameraControllers, playerControllers, imguis := [], [], [], [];
    }

    /** update: ImGui components, player controllers, camera controllers,
        cameras, each list in order. */
    method Update() returns (calls: seq<Component>)
      ensures calls == LogicUpdateOrder(State())
    {
      calls := VisitAll([], imguis);
      calls := VisitAll(calls, playerControllers);
      calls := VisitAll(calls, cameraControllers);
      calls := VisitAll(calls, cameras);
    }

    /** add: dispatch on the type, tested in the order camera, camera
        controller, player controller, ImGui; failed reports the
        assertion on any other type. */
    method Add(c: Component) returns (failed: bool)
      modifies this
      ensures failed == !IsLogicType(c.kind)
      ensures State() == LogicAdded(old(State()), c)
    {
      failed := false;
      if c.kind == CameraComponentT {
        cameras := cameras + [c];
      } else if c.kind == CameraControllerT {
        cameraControllers := cameraControllers + [c];
      } else if c.kind == PlayerControllerT {
        playerControllers := playerControllers + [c];
      } else if c.kind == ImGuiComponentT {
        imguis := imguis + [c];
      } else {
        failed := true;
      }
    }

    /** remove, corrected to erase player controllers too: the first
        occurrence leaves the list of the component's type. */
    method Remove(c: Component)
      modifies this
      ensures State() == LogicRemoved(old(State()), c)
    {
      if c.kind == CameraComponentT {
        cameras := EraseFirst(cameras, c);
      } else if c.kind == CameraControllerT {
        cameraControllers := EraseFirst(cameraControllers, c);
      } else if c.kind == PlayerControllerT {
        playerControllers := EraseFirst(playerControllers, c);
      } else if c.kind == ImGuiComponentT {
        imguis := EraseFirst(imguis, c);
      }
    }
  }

  /** The iterator loop that erases the first match and stops. */
  method EraseFirst(s: seq<Component>, c: Component) returns (r: seq<Component>)
    ensures r == RemoveFirst(s, c)
  {
    var found, i := FindFirst(s, c);
    r := if found then RemoveAt(s, i) else s;
  }

  /** What PathfindingSystem and PostCollisionSystem keep: every
      component added (`m_componentRefs`) and those of the system's own
      type. */
  datatype Registry = Registry(refs: seq<Component>, typed: seq<Component>)

  /** add: always onto the refs, and onto the typed list when the
      component has the system's type. */
  function Registered(r: Registry, c: Component, own: TypeId): (r': Registry)
    ensures r'.refs == r.refs + [c]
    ensures c.kind == own ==> r'.typed == r.typed + [c]
    ensures c.kind != own ==> r'.typed == r.typed
  {
    Registry(r.refs + [c], if c.kind == own then r.typed + [c] else r.typed)
  }

  /** remove: the first match leaves the typed list (for a component of
      the system's type) and the refs. */
  function Unregistered(r: Registry, c: Component, own: TypeId): (r': Registry)
    ensures multiset(r'.refs) == multiset(r.refs) - multiset{c}
    ensures c.kind == own ==> multiset(r'.typed) == multiset(r.typed) - multiset{c}
    ensures c.kind != own ==> r'.typed == r.typed
  {
    RemoveOneCopy(r.refs, c);
    RemoveOneCopy(r.typed, c);
    Registry(RemoveFirst(r.refs, c), if c.kind == own then RemoveFirst(r.typed, c) else r.typed)
  }

  /** Removing a component that is not registered changes nothing. */
  lemma UnregisterAbsent(r: Registry, c: Component, own: TypeId)
    requires c !in r.refs && c !in r.typed
    ensures Unregistered(r, c, own) == r
  {
    RemoveOneCopy(r.refs, c);
    RemoveOneCopy(r.typed, c);
  }

  /** Adding a component that is not registered and removing it again
      restores both lists. */
  lemma RegisterThenUnregister(r: Registry, c: Component, own: TypeId)
    requires c !in r.refs && c !in r.typed
    ensures Unregistered(Registered(r, c, own), c, own) == r
  {
    AppendThenRemove(r.refs, c);
    AppendThenRemove(r.typed, c);
  }

  class PathfindingSystem {
    var componentRefs: seq<Component>
    var pathfindingComponents: seq<Component>

    function State(): Registry
      reads this
    {
      Registry(componentRefs, pathfindingComponents)
    }

    constructor ()
      ensures State() == Registry([], [])
    {
      componentRefs, pathfindingComponents := [], [];
    }

    /** update: every pathfinding component, in list order. */
    method Update() returns (calls: seq<Component>)
      ensures calls == pathfindingComponents
    {
      calls := VisitAll([], pathfindingComponents);
    }

    method Add(c: Component)
      modifies this
      ensures State() == Registered(old(State()), c, PathfindingComponentT)
    {
      componentRefs := componentRefs + [c];
      if c.kind == PathfindingComponentT {
        pathfindingComponents := pathfindingComponents + [c];
      }
    }

    method Remove(c: Component)
      modifies this
      ensures State() == Unregistered(old(State()), c, PathfindingComponentT)
    {
      if c.kind == PathfindingComponentT {
        pathfindingComponents := EraseFirst(pathfindingComponents, c);
      }
      componentRefs := EraseFirst(componentRefs, c);
    }
  }

  class PostCollisionSystem {
    var componentRefs: seq<Component>
    var groundComponents: seq<Component>

    function State(): Registry
      reads this
    {
      Registry(componentRefs, groundComponents)
    }

    constructor ()
      ensures State() == Registry([], [])
    {
      componentRefs, groundComponents := [], [];
    }

    /** update: every ground component once, in list order. */
    method Update() returns (calls: seq<Component>)
      ensures calls == groundComponents
    {
      calls := VisitAll([], groundComponents);
    }

    /** add: the ref is pushed first; a component that is not a ground
        component then fails the assertion (failed). */
    method Add(c: Component) returns (failed: bool)
      modifies this
      ensures failed == (c.kind != GroundComponentT)
      ensures State() == Registered(old(State()), c, GroundComponentT)
    {
      componentRefs := componentRefs + [c];
      if c.kind == GroundComponentT {
        groundComponents := groundComponents + [c];
        failed := false;
      } else {
        failed := true;
      }
    }

    method Remove(c: Component)
      modifies this
      ensures State() == Unregistered(old(State()), c, GroundComponentT)
    {
      if c.kind == GroundComponentT {
        groundComponents := EraseFirst(groundComponents, c);
      }
      componentRefs := EraseFirst(componentRefs, c);
    }
  }
}
