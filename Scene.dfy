/** The scene: the registry of active game objects and of active components
    by type, the queues that delay creation and destruction to fixed points
    of the frame, and the message bus. The static members of `Scene` are the
    fields of one Scene object. A receiver is an opaque identity; what it
    does when called is given as a `respond` function returning the messages
    it sends. */
module Scene {
  import opened Seqs
  import opened Entities

  /** A queued (type, component) pair of the component init and kill
      queues. */
  datatype Entry = Entry(typeI: TypeId, comp: Component)

  /** The scene's static containers. */
  datatype SceneState = SceneState(
    gameObjects: seq<GameObject>,
    components: map<TypeId, seq<Component>>,
    gameObjectInitQueue: seq<GameObject>,
    gameObjectKillQueue: seq<GameObject>,
    componentInitQueue: seq<Entry>,
    componentKillQueue: seq<Entry>,
    messages: seq<Message>,
    receivers: map<TypeId, seq<Receiver>>,
    objectReceivers: map<GameObject, map<TypeId, seq<Receiver>>>)

  /** The message `initGameObjects` sends for an object. */
  function InitMessage(g: GameObject): Message
  {
    Message(g, ObjectInitMessageT, ObjectInit)
  }

  /** The message `initComponents` sends for a component it registers. */
  function AddedMessage(e: Entry): Message
  {
    Message(e.comp.owner, ComponentAddedMessageT, ComponentAdded(e.comp, e.typeI))
  }

  /** The message `killComponents` sends for a component it unregisters. */
  function RemovedMessage(e: Entry): Message
  {
    Message(null, ComponentRemovedMessageT, ComponentRemoved(e.comp, e.typeI))
  }

  function InitMessages(objs: seq<GameObject>): seq<Message>
  {
    if objs == [] then []
    else InitMessages(objs[..|objs| - 1]) + [InitMessage(objs[|objs| - 1])]
  }

  /** One more queued object adds its init message. */
  lemma InitMessagesStep(queue: seq<GameObject>, i: nat)
    requires i < |queue|
    ensures queue[..i + 1] == queue[..i] + [queue[i]]
    ensures InitMessages(queue[..i + 1]) == InitMessages(queue[..i]) + [InitMessage(queue[i])]
  {
    assert queue[..i + 1][..i] == queue[..i];
  }

  function AddedMessages(q: seq<Entry>): seq<Message>
  {
    if q == [] then []
    else AddedMessages(q[..|q| - 1]) + [AddedMessage(q[|q| - 1])]
  }

  /** The entries of q whose component belongs to g, in queue order. */
  function OwnedBy(q: seq<Entry>, g: GameObject): seq<Entry>
  {
    if q == [] then []
    else OwnedBy(q[..|q| - 1], g) + (if q[|q| - 1].comp.owner == g then [q[|q| - 1]] else [])
  }

  /** The components of the entries of q queued as type t, in queue order. */
  function OfType(q: seq<Entry>, t: TypeId): seq<Component>
  {
    if q == [] then []
    else OfType(q[..|q| - 1], t) + (if q[|q| - 1].typeI == t then [q[|q| - 1].comp] else [])
  }

  /** The components of the entries of q, in queue order. */
  function Comps(q: seq<Entry>): (r: seq<Component>)
    ensures |r| == |q|
    ensures forall i :: 0 <= i < |q| ==> r[i] == q[i].comp
  {
    if q == [] then [] else Comps(q[..|q| - 1]) + [q[|q| - 1].comp]
  }

  /** The objects that own the components of the entries of q. */
  function Owners(q: seq<Entry>): set<GameObject>
  {
    set e | e in q :: e.comp.owner
  }

  /** Pushing each entry's component onto the list for its type. */
  function Register(m: map<TypeId, seq<Component>>, q: seq<Entry>): map<TypeId, seq<Component>>
  {
    if q == [] then m
    else Push(Register(m, q[..|q| - 1]), q[|q| - 1].typeI, q[|q| - 1].comp)
  }

  /** The types the entries of q are queued as. */
  function Types(q: seq<Entry>): set<TypeId>
  {
    if q == [] then {} else Types(q[..|q| - 1]) + {q[|q| - 1].typeI}
  }

  /** Each type's list grows by exactly the components queued as that
      type, in queue order, so every queued component ends up registered
      under its type and nothing registered before is lost or moved; a
      type gets a list exactly when it had one or something is queued as
      it. */
  lemma {:induction false} RegisterAppendsInOrder(m: map<TypeId, seq<Component>>, q: seq<Entry>, t: TypeId)
    ensures Lookup(Register(m, q), t) == Lookup(m, t) + OfType(q, t)
    ensures t in Register(m, q) <==> t in m || t in Types(q)
  {
    if q != [] {
      var p, e := q[..|q| - 1], q[|q| - 1];
      RegisterAppendsInOrder(m, p, t);
      assert Register(m, q) == Push(Register(m, p), e.typeI, e.comp);
      assert OfType(q, t) == OfType(p, t) + (if e.typeI == t then [e.comp] else []);
    }
  }

  /** Attaching each entry's component to a game object, in order. */
  function AttachAll(st: ObjectState, es: seq<Entry>): ObjectState
  {
    if es == [] then st
    else Attach(AttachAll(st, es[..|es| - 1]), es[|es| - 1].comp, es[|es| - 1].typeI)
  }

  /** Detaching each entry's component from a game object, in order. */
  function DetachAll(st: ObjectState, es: seq<Entry>): ObjectState
  {
    if es == [] then st
    else Detach(DetachAll(st, es[..|es| - 1]), es[|es| - 1].comp, es[|es| - 1].typeI)
  }

  lemma OwnedByStep(q: seq<Entry>, i: nat, g: GameObject)
    requires i < |q|
    ensures q[i].comp.owner == g ==> OwnedBy(q[..i + 1], g) == OwnedBy(q[..i], g) + [q[i]]
    ensures q[i].comp.owner != g ==> OwnedBy(q[..i + 1], g) == OwnedBy(q[..i], g)
  {
    assert q[..i + 1][..i] == q[..i];
    assert OwnedBy(q[..i], g) + [] == OwnedBy(q[..i], g);
  }

  lemma AttachAllSnoc(st: ObjectState, es: seq<Entry>, e: Entry)
    ensures AttachAll(st, es + [e]) == Attach(AttachAll(st, es), e.comp, e.typeI)
  {
    assert (es + [e])[..|es|] == es;
  }

  lemma DetachAllSnoc(st: ObjectState, es: seq<Entry>, e: Entry)
    ensures DetachAll(st, es + [e]) == Detach(DetachAll(st, es), e.comp, e.typeI)
  {
    assert (es + [e])[..|es|] == es;
  }

  /** Attaching a sequence of entries appends their components to the list
      of all components and each to the list for its type, in order. */
  lemma AttachAllAppends(st: ObjectState, es: seq<Entry>, t: TypeId)
    ensures AttachAll(st, es).allComponents == st.allComponents + Comps(es)
    ensures Lookup(AttachAll(st, es).compsByCompT, t) == Lookup(st.compsByCompT, t) + OfType(es, t)
  {
    AttachAllComponents(st, es);
    AttachAllOfType(st, es, t);
  }

  lemma {:induction false} AttachAllComponents(st: ObjectState, es: seq<Entry>)
    ensures AttachAll(st, es).allComponents == st.allComponents + Comps(es)
  {
    if es != [] {
      var p, e := es[..|es| - 1], es[|es| - 1];
      AttachAllComponents(st, p);
      assert AttachAll(st, es) == Attach(AttachAll(st, p), e.comp, e.typeI);
      assert Comps(es) == Comps(p) + [e.comp];
      assert st.allComponents + Comps(p) + [e.comp] == st.allComponents + (Comps(p) + [e.comp]);
    }
  }

  lemma {:induction false} AttachAllOfType(st: ObjectState, es: seq<Entry>, t: TypeId)
    ensures Lookup(AttachAll(st, es).compsByCompT, t) == Lookup(st.compsByCompT, t) + OfType(es, t)
  {
    if es != [] {
      var p, e := es[..|es| - 1], es[|es| - 1];
      AttachAllOfType(st, p, t);
      var a := AttachAll(st, p);
      assert AttachAll(st, es) == Attach(a, e.comp, e.typeI);
      var before := Lookup(st.compsByCompT, t);
      if e.typeI == t {
        assert OfType(es, t) == OfType(p, t) + [e.comp];
        assert before + OfType(p, t) + [e.comp] == before + (OfType(p, t) + [e.comp]);
      } else {
        assert OfType(es, t) == OfType(p, t) + [];
        assert Lookup(Attach(a, e.comp, e.typeI).compsByCompT, t) == Lookup(a.compsByCompT, t);
      }
    }
  }

  /** The game objects `killGameObjects` leaves active and queued for
      init, and the ones it found active and killed, in kill order. */
  datatype ObjectKill = ObjectKill(active: seq<GameObject>, pending: seq<GameObject>, killed: seq<GameObject>)

  /** One kill-queue entry: an active object is erased from the active
      list (its last occurrence); any other one from the init queue. */
  function KillOneObject(r: ObjectKill, g: GameObject): ObjectKill
  {
    if g in r.active then ObjectKill(RemoveLast(r.active, g), r.pending, r.killed + [g])
    else ObjectKill(r.active, RemoveLast(r.pending, g), r.killed)
  }

  function ObjectKills(active: seq<GameObject>, pending: seq<GameObject>, kq: seq<GameObject>): ObjectKill
  {
    if kq == [] then ObjectKill(active, pending, [])
    else KillOneObject(ObjectKills(active, pending, kq[..|kq| - 1]), kq[|kq| - 1])
  }

  /** What holds of the registries after some kill-queue entries `done`
      have been processed. */
  ghost predicate ObjectKillInv(r: ObjectKill, active: seq<GameObject>, pending: seq<GameObject>, done: seq<GameObject>)
  {
    NoDup(r.active) && NoDup(r.pending) &&
    (forall g :: g in r.active ==> g in active) &&
    (forall g :: g in r.pending ==> g in pending) &&
    (forall g :: g in done ==> g !in r.active && g !in r.pending) &&
    multiset(r.active) + multiset(r.killed) == multiset(active)
  }

  lemma KillOneObjectKeeps(r: ObjectKill, g: GameObject, active: seq<GameObject>, pending: seq<GameObject>, done: seq<GameObject>)
    requires forall h :: h in active ==> h !in pending
    requires ObjectKillInv(r, active, pending, done)
    ensures ObjectKillInv(KillOneObject(r, g), active, pending, done + [g])
  {
    RemoveLastNoDup(r.active, g);
    RemoveLastNoDup(r.pending, g);
    RemoveOneCopy(r.active, g);
    assert forall h :: h in done + [g] ==> h in done || h == g;
  }

  /** For registries without duplicates, where no object is both active
      and queued for init, no object on the kill queue is left active or
      queued for init; the objects left are among those before, still
      without duplicates; and the active objects and the killed ones
      together are exactly the active objects before. */
  lemma {:induction false} KillObjectsRemovesAll(active: seq<GameObject>, pending: seq<GameObject>, kq: seq<GameObject>)
    requires NoDup(active) && NoDup(pending)
    requires forall g :: g in active ==> g !in pending
    ensures var r := ObjectKills(active, pending, kq);
      (forall g :: g in kq ==> g !in r.active && g !in r.pending) &&
      NoDup(r.active) && NoDup(r.pending) &&
      (forall g :: g in r.active ==> g in active) &&
      (forall g :: g in r.pending ==> g in pending) &&
      multiset(r.active) + multiset(r.killed) == multiset(active)
  {
    KillObjectsInv(active, pending, kq);
  }

  lemma {:induction false} KillObjectsInv(active: seq<GameObject>, pending: seq<GameObject>, kq: seq<GameObject>)
    requires NoDup(active) && NoDup(pending)
    requires forall g :: g in active ==> g !in pending
    ensures ObjectKillInv(ObjectKills(active, pending, kq), active, pending, kq)
  {
    if kq == [] {
      assert multiset(active) + multiset([]) == multiset(active);
    } else {
      var p := kq[..|kq| - 1];
      KillObjectsInv(active, pending, p);
      KillOneObjectKeeps(ObjectKills(active, pending, p), kq[|kq| - 1], active, pending, p);
      assert p + [kq[|kq| - 1]] == kq;
    }
  }

  /** What `killComponents` leaves registered and queued for init, and
      the removal messages it sends. */
  datatype ComponentKill = ComponentKill(components: map<TypeId, seq<Component>>, pending: seq<Entry>, sent: seq<Message>)

  /** Erasing the last init-queue entry holding c, whatever its type. */
  function RemoveEntryOf(q: seq<Entry>, c: Component): seq<Entry>
  {
    if c in Comps(q) then RemoveAt(q, LastIndex(Comps(q), c)) else q
  }

  /** One kill-queue entry: a component registered under the entry's type
      is erased from that list (its last occurrence) with a removal
      message; otherwise it is erased from the init queue. */
  function KillOneComponent(r: ComponentKill, e: Entry): ComponentKill
  {
    if e.typeI in r.components && e.comp in r.components[e.typeI] then
      ComponentKill(r.components[e.typeI := RemoveLast(r.components[e.typeI], e.comp)],
        r.pending, r.sent + [RemovedMessage(e)])
    else ComponentKill(r.components, RemoveEntryOf(r.pending, e.comp), r.sent)
  }

  function ComponentKills(m: map<TypeId, seq<Component>>, pending: seq<Entry>, kq: seq<Entry>): ComponentKill
  {
    if kq == [] then ComponentKill(m, pending, [])
    else KillOneComponent(ComponentKills(m, pending, kq[..|kq| - 1]), kq[|kq| - 1])
  }

  /** For type lists without duplicates, no component on the kill queue is
      still registered under the type it was killed as; no type list gains
      a component or a type; and one removal message is sent per component
      actually unregistered, so at most one per kill-queue entry. */
  lemma {:induction false} KillComponentsRemovesAll(m: map<TypeId, seq<Component>>, pending: seq<Entry>, kq: seq<Entry>)
    requires forall t :: t in m ==> NoDup(m[t])
    ensures var r := ComponentKills(m, pending, kq);
      r.components.Keys == m.Keys &&
      (forall t :: t in m ==> NoDup(r.components[t]) && forall c :: c in r.components[t] ==> c in m[t]) &&
      (forall e :: e in kq && e.typeI in m ==> e.comp !in r.components[e.typeI]) &&
      |r.sent| <= |kq|
  {
    if kq != [] {
      var p := kq[..|kq| - 1];
      var e := kq[|kq| - 1];
      KillComponentsRemovesAll(m, pending, p);
      var r0 := ComponentKills(m, pending, p);
      assert ComponentKills(m, pending, kq) == KillOneComponent(r0, e);
      if e.typeI in r0.components {
        RemoveLastNoDup(r0.components[e.typeI], e.comp);
      }
      assert forall f :: f in kq ==> f in p || f == e by {
        assert kq == p + [e];
      }
    }
  }

  /** `GameObject::m_receivers` of g: the receivers registered on g by
      message type, none when g has not had any registered. */
  function ReceiverMap(objectReceivers: map<GameObject, map<TypeId, seq<Receiver>>>, g: GameObject): map<TypeId, seq<Receiver>>
  {
    if g in objectReceivers then objectReceivers[g] else map[]
  }

  /** The receivers registered on the message's target for its type. */
  function ObjectReceivers(m: Message, objectReceivers: map<GameObject, map<TypeId, seq<Receiver>>>): seq<Receiver>
  {
    if m.target != null then Lookup(ReceiverMap(objectReceivers, m.target), m.msgType) else []
  }

  /** The receivers one message is handed to: those on its target object
      first, then the scene-level ones for its type. */
  function ReceiversOf(m: Message, objectReceivers: map<GameObject, map<TypeId, seq<Receiver>>>,
                       sceneReceivers: map<TypeId, seq<Receiver>>): seq<Receiver>
  {
    ObjectReceivers(m, objectReceivers) + Lookup(sceneReceivers, m.msgType)
  }

  /** The calls handing m to each of rs, in order. */
  function Pairs(rs: seq<Receiver>, m: Message): seq<(Receiver, Message)>
  {
    if rs == [] then [] else Pairs(rs[..|rs| - 1], m) + [(rs[|rs| - 1], m)]
  }

  lemma {:induction false} PairsAppend(a: seq<Receiver>, b: seq<Receiver>, m: Message)
    ensures Pairs(a + b, m) == Pairs(a, m) + Pairs(b, m)
  {
    if b != [] {
      assert (a + b)[..|a + b| - 1] == a + b[..|b| - 1];
      PairsAppend(a, b[..|b| - 1], m);
    } else {
      assert a + b == a;
    }
  }

  lemma {:induction false} PairsMembers(rs: seq<Receiver>, m: Message, r: Receiver, m': Message)
    ensures (r, m') in Pairs(rs, m) <==> r in rs && m' == m
  {
    if rs != [] {
      PairsMembers(rs[..|rs| - 1], m, r, m');
      assert rs == rs[..|rs| - 1] + [rs[|rs| - 1]];
    }
  }

  /** The calls one round of `relayMessages` makes, in order. */
  function Deliveries(buffer: seq<Message>, objs: map<GameObject, map<TypeId, seq<Receiver>>>,
                      sceneReceivers: map<TypeId, seq<Receiver>>): seq<(Receiver, Message)>
  {
    if buffer == [] then []
    else
      var last := buffer[|buffer| - 1];
      Deliveries(buffer[..|buffer| - 1], objs, sceneReceivers) + Pairs(ReceiversOf(last, objs, sceneReceivers), last)
  }

  /** A round hands each buffered message to each of its receivers, and
      makes no other call. */
  lemma {:induction false} DeliveriesComplete(buffer: seq<Message>, objs: map<GameObject, map<TypeId, seq<Receiver>>>,
                                              sceneReceivers: map<TypeId, seq<Receiver>>, r: Receiver, m: Message)
    ensures (r, m) in Deliveries(buffer, objs, sceneReceivers) <==> m in buffer && r in ReceiversOf(m, objs, sceneReceivers)
  {
    if buffer != [] {
      var p := buffer[..|buffer| - 1];
      var last := buffer[|buffer| - 1];
      var pairs := Pairs(ReceiversOf(last, objs, sceneReceivers), last);
      assert Deliveries(buffer, objs, sceneReceivers) == Deliveries(p, objs, sceneReceivers) + pairs;
      DeliveriesComplete(p, objs, sceneReceivers, r, m);
      PairsMembers(ReceiversOf(last, objs, sceneReceivers), last, r, m);
      assert buffer == p + [last];
      assert m in buffer <==> m in p || m == last;
    }
  }

  /** The messages the receivers send during a round, in call order. */
  function Responses(calls: seq<(Receiver, Message)>, respond: (Receiver, Message) -> seq<Message>): seq<Message>
  {
    if calls == [] then []
    else Responses(calls[..|calls| - 1], respond) + respond(calls[|calls| - 1].0, calls[|calls| - 1].1)
  }

  lemma {:induction false} ResponsesAppend(a: seq<(Receiver, Message)>, b: seq<(Receiver, Message)>,
                                           respond: (Receiver, Message) -> seq<Message>)
    ensures Responses(a + b, respond) == Responses(a, respond) + Responses(b, respond)
  {
    if b != [] {
      var p := b[..|b| - 1];
      assert (a + b)[..|a + b| - 1] == a + p;
      ResponsesAppend(a, p, respond);
    } else {
      assert a + b == a;
    }
  }

  /** Receivers that send nothing end the relay after one round: the
      messages of a round are exactly those its receivers send. */
  lemma {:induction false} SilentReceiversSendNothing(calls: seq<(Receiver, Message)>, respond: (Receiver, Message) -> seq<Message>)
    requires forall r, m :: respond(r, m) == []
    ensures Responses(calls, respond) == []
  {
    if calls != [] {
      SilentReceiversSendNothing(calls[..|calls| - 1], respond);
    }
  }

  /** `Scene`'s static state. */
  class Scene {
    var gameObjects: seq<GameObject>
    var components: map<TypeId, seq<Component>>
    var gameObjectInitQueue: seq<GameObject>
    var gameObjectKillQueue: seq<GameObject>
    var componentInitQueue: seq<Entry>
    var componentKillQueue: seq<Entry>
    var messages: seq<Message>
    var receivers: map<TypeId, seq<Receiver>>
    var objectReceivers: map<GameObject, map<TypeId, seq<Receiver>>>

    function State(): SceneState
      reads this
    {
      SceneState(gameObjects, components, gameObjectInitQueue, gameObjectKillQueue,
        componentInitQueue, componentKillQueue, messages, receivers, objectReceivers)
    }

    constructor ()
      ensures State() == SceneState([], map[], [], [], [], [], [], map[], map[])
    {
      gameObjects := [];
      components := map[];
      gameObjectInitQueue := [];
      gameObjectKillQueue := [];
      componentInitQueue := [];
      componentKillQueue := [];
      messages := [];
      receivers := map[];
      objectReceivers := map[];
    }

    /** `createGameObject`: a new, empty object joins the init queue. */
    method CreateGameObject() returns (g: GameObject)
      modifies this
      ensures fresh(g) && g.State() == ObjectState([], map[], null)
      ensures State() == old(State()).(gameObjectInitQueue := old(gameObjectInitQueue) + [g])
    {
      g := new GameObject();
      gameObjectInitQueue := gameObjectInitQueue + [g];
    }

    /** `destroyGameObject`: the object joins the kill queue. */
    method DestroyGameObject(g: GameObject)
      modifies this
      ensures State() == old(State()).(gameObjectKillQueue := old(gameObjectKillQueue) + [g])
    {
      gameObjectKillQueue := gameObjectKillQueue + [g];
    }

    /** `addComponentAs<CompT, SuperT>`: a new component of type compT,
        belonging to g, joins the init queue registered as superT. */
    method AddComponentAs(g: GameObject, compT: TypeId, superT: TypeId) returns (c: Component)
      modifies this
      ensures fresh(c) && c.owner == g && c.kind == compT
      ensures State() == old(State()).(componentInitQueue := old(componentInitQueue) + [Entry(superT, c)])
    {
      c := new Component(g, compT);
      componentInitQueue := componentInitQueue + [Entry(superT, c)];
    }

    /** `addComponent<CompT>`: registered as its own type. */
    method AddComponent(g: GameObject, compT: TypeId) returns (c: Component)
      modifies this
      ensures fresh(c) && c.owner == g && c.kind == compT
      ensures State() == old(State()).(componentInitQueue := old(componentInitQueue) + [Entry(compT, c)])
    {
      c := AddComponentAs(g, compT, compT);
    }

    /** `removeComponent<CompT>`: the component joins the kill queue under
        the type it is removed as. */
    method RemoveComponent(c: Component, compT: TypeId)
      modifies this
      ensures State() == old(State()).(componentKillQueue := old(componentKillQueue) + [Entry(compT, c)])
    {
      componentKillQueue := componentKillQueue + [Entry(compT, c)];
    }

    /** `sendMessage<MsgT>`: the message joins the queue. */
    method SendMessage(target: GameObject?, msgT: TypeId, payload: Payload)
      modifies this
      ensures State() == old(State()).(messages := old(messages) + [Message(target, msgT, payload)])
    {
      messages := messages + [Message(target, msgT, payload)];
    }

    /** `addReceiver<MsgT>`: onto the object's list for msgT when an object
        is given, otherwise onto the scene-level list. */
    method AddReceiver(target: GameObject?, msgT: TypeId, r: Receiver)
      modifies this
      ensures target != null ==> State() == old(State()).(objectReceivers :=
        old(objectReceivers)[target := Push(ReceiverMap(old(objectReceivers), target), msgT, r)])
      ensures target == null ==> State() == old(State()).(receivers := Push(old(receivers), msgT, r))
    {
      if target != null {
        var own := ReceiverMap(objectReceivers, target);
        objectReceivers := objectReceivers[target := own[msgT := Lookup(own, msgT) + [r]]];
      } else {
        receivers := receivers[msgT := Lookup(receivers, msgT) + [r]];
      }
    }

    /** `getComponents<CompT>`: the list for t, inserted empty when t has
        none yet; calling it again returns the same list and changes
        nothing more. */
    method GetComponents(t: TypeId) returns (list: seq<Component>)
      modifies this
      ensures t in components && list == components[t] == Lookup(old(components), t)
      ensures State() == old(State()).(components := old(components)[t := Lookup(old(components), t)])
    {
      if t !in components {
        components := components[t := []];
      }
      list := components[t];
    }

    /** `initGameObjects`: every queued object, in queue order, gets an
        init message and becomes active; the queue is left empty. */
    method InitGameObjects()
      modifies this
      ensures State() == old(State()).(
        gameObjects := old(gameObjects) + old(gameObjectInitQueue),
        gameObjectInitQueue := [],
        messages := old(messages) + InitMessages(old(gameObjectInitQueue)))
    {
      var queue := gameObjectInitQueue;
      var i := 0;
      while i < |queue|
        invariant i <= |queue|
        invariant State() == old(State()).(
          gameObjects := old(gameObjects) + queue[..i],
          messages := old(messages) + InitMessages(queue[..i]))
      {
        InitMessagesStep(queue, i);
        SendMessage(queue[i], ObjectInitMessageT, ObjectInit);
        gameObjects := gameObjects + [queue[i]];
        i := i + 1;
      }
      assert queue[..i] == queue;
      gameObjectInitQueue := [];
    }

    /** `initComponents`: first every queued component is attached to its
        object in queue order; then each is pushed onto the scene's list
        for the type it was queued as and announced with an added message.
        The queue is left empty. */
    method InitComponents()
      modifies this, Owners(componentInitQueue)
      ensures forall g :: g in Owners(old(componentInitQueue)) ==>
        g.State() == AttachAll(old(g.State()), OwnedBy(old(componentInitQueue), g))
      ensures State() == old(State()).(
        components := Register(old(components), old(componentInitQueue)),
        componentInitQueue := [],
        messages := old(messages) + AddedMessages(old(componentInitQueue)))
    {
      AttachQueued(componentInitQueue);
      RegisterQueued();
    }

    /** The first loop of `initComponents`: each queued component is
        attached to its own game object. */
    method AttachQueued(queue: seq<Entry>)
      modifies Owners(queue)
      ensures forall g :: g in Owners(queue) ==>
        g.State() == AttachAll(old(g.State()), OwnedBy(queue, g))
    {
      var i := 0;
      while i < |queue|
        invariant i <= |queue|
        invariant forall g :: g in Owners(queue) ==>
          g.State() == AttachAll(old(g.State()), OwnedBy(queue[..i], g))
      {
        var e := queue[i];
        e.comp.owner.AddComponent(e.comp, e.typeI);
        forall g | g in Owners(queue)
          ensures g.State() == AttachAll(old(g.State()), OwnedBy(queue[..i + 1], g))
        {
          OwnedByStep(queue, i, g);
          AttachAllSnoc(old(g.State()), OwnedBy(queue[..i], g), e);
        }
        i := i + 1;
      }
      assert queue[..i] == queue;
    }

    /** The first loop of `doKillQueue`: each component on the kill queue
        is removed from its own game object. */
    method DetachQueued(queue: seq<Entry>)
      modifies Owners(queue)
      ensures forall g :: g in Owners(queue) ==>
        g.State() == DetachAll(old(g.State()), OwnedBy(queue, g))
    {
      var i := 0;
      while i < |queue|
        invariant i <= |queue|
        invariant forall g :: g in Owners(queue) ==>
          g.State() == DetachAll(old(g.State()), OwnedBy(queue[..i], g))
      {
        var e := queue[i];
        e.comp.owner.RemoveComponent(e.comp, e.typeI);
        forall g | g in Owners(queue)
          ensures g.State() == DetachAll(old(g.State()), OwnedBy(queue[..i + 1], g))
        {
          OwnedByStep(queue, i, g);
          DetachAllSnoc(old(g.State()), OwnedBy(queue[..i], g), e);
        }
        i := i + 1;
      }
      assert queue[..i] == queue;
    }

    /** The second loop of `initComponents`. */
    method RegisterQueued()
      modifies this
      ensures State() == old(State()).(
        components := Register(old(components), old(componentInitQueue)),
        componentInitQueue := [],
        messages := old(messages) + AddedMessages(old(componentInitQueue)))
    {
      var queue := componentInitQueue;
      var i := 0;
      while i < |queue|
        invariant i <= |queue|
        invariant State() == old(State()).(
          components := Register(old(components), queue[..i]),
          messages := old(messages) + AddedMessages(queue[..i]))
      {
        var e := queue[i];
        assert queue[..i + 1][..i] == queue[..i];
        components := components[e.typeI := Lookup(components, e.typeI) + [e.comp]];
        SendMessage(e.comp.owner, ComponentAddedMessageT, ComponentAdded(e.comp, e.typeI));
        i := i + 1;
      }
      assert queue[..i] == queue;
      componentInitQueue := [];
    }

    /** `killGameObjects`: each object on the kill queue is looked up among
        the active objects from the back; if found, every component it
        holds joins the component kill queue and the object is erased;
        otherwise it is erased from the init queue, again from the back.
        The kill queue is left empty. */
    method KillGameObjects()
      modifies this
      ensures var r := ObjectKills(old(gameObjects), old(gameObjectInitQueue), old(gameObjectKillQueue));
        State() == old(State()).(
          gameObjects := r.active,
          gameObjectInitQueue := r.pending,
          gameObjectKillQueue := [],
          componentKillQueue := componentKillQueue) &&
        |old(componentKillQueue)| <= |componentKillQueue| &&
        componentKillQueue[..|old(componentKillQueue)|] == old(componentKillQueue) &&
        forall e :: e in componentKillQueue[|old(componentKillQueue)|..] <==>
          exists g :: g in r.killed && Holds(g, e)
    {
      ghost var s0 := State();
      var kq := gameObjectKillQueue;
      ghost var before := componentKillQueue;
      var k := 0;
      assert kq[..0] == [] && componentKillQueue[|before|..] == [];
      while k < |kq|
        invariant k <= |kq|
        invariant var r := ObjectKills(s0.gameObjects, s0.gameObjectInitQueue, kq[..k]);
          State() == s0.(
            gameObjects := r.active,
            gameObjectInitQueue := r.pending,
            componentKillQueue := componentKillQueue) &&
          |before| <= |componentKillQueue| &&
          componentKillQueue[..|before|] == before &&
          forall e :: e in componentKillQueue[|before|..] <==> exists g :: g in r.killed && Holds(g, e)
      {
        KillNext(kq, k, before, s0);
        k := k + 1;
      }
      assert kq[..k] == kq;
      gameObjectKillQueue := [];
    }

    /** One pass of the `killGameObjects` loop, for kq[k]. */
    method KillNext(kq: seq<GameObject>, k: nat, ghost before: seq<Entry>, ghost s0: SceneState)
      requires k < |kq|
      requires var r := ObjectKills(s0.gameObjects, s0.gameObjectInitQueue, kq[..k]);
        State() == s0.(
          gameObjects := r.active,
          gameObjectInitQueue := r.pending,
          componentKillQueue := componentKillQueue) &&
        |before| <= |componentKillQueue| &&
        componentKillQueue[..|before|] == before &&
        forall e :: e in componentKillQueue[|before|..] <==> exists g :: g in r.killed && Holds(g, e)
      modifies this
      ensures var r := ObjectKills(s0.gameObjects, s0.gameObjectInitQueue, kq[..k + 1]);
        State() == s0.(
          gameObjects := r.active,
          gameObjectInitQueue := r.pending,
          componentKillQueue := componentKillQueue) &&
        |before| <= |componentKillQueue| &&
        componentKillQueue[..|before|] == before &&
        forall e :: e in componentKillQueue[|before|..] <==> exists g :: g in r.killed && Holds(g, e)
    {
      var g := kq[k];
      ghost var r0 := ObjectKills(s0.gameObjects, s0.gameObjectInitQueue, kq[..k]);
      assert ObjectKills(s0.gameObjects, s0.gameObjectInitQueue, kq[..k + 1]) == KillOneObject(r0, g) by {
        assert kq[..k + 1][..k] == kq[..k];
      }
      ghost var added := componentKillQueue[|before|..];
      ghost var mid := |componentKillQueue|;
      var killedNow := KillObject(g);
      assert componentKillQueue[|before|..] == added + componentKillQueue[mid..];
      ghost var r1 := KillOneObject(r0, g);
      assert r1.killed == r0.killed + (if killedNow then [g] else []);
      CollectedStep(added, componentKillQueue[mid..], r0.killed, g, killedNow);
    }

    /** The body of the `killGameObjects` loop for one object g: when g is
        active, its last occurrence is erased and the pairs it holds join
        the component kill queue; otherwise its last occurrence in the init
        queue, if any, is erased. */
    method KillObject(g: GameObject) returns (killedNow: bool)
      modifies this
      ensures killedNow <==> g in old(gameObjects)
      ensures var r := KillOneObject(ObjectKill(old(gameObjects), old(gameObjectInitQueue), []), g);
        State() == old(State()).(
          gameObjects := r.active,
          gameObjectInitQueue := r.pending,
          componentKillQueue := componentKillQueue)
      ensures |old(componentKillQueue)| <= |componentKillQueue|
      ensures componentKillQueue[..|old(componentKillQueue)|] == old(componentKillQueue)
      ensures forall e :: e in componentKillQueue[|old(componentKillQueue)|..] <==> killedNow && Holds(g, e)
    {
      var i;
      killedNow, i := FindLast(gameObjects, g);
      if killedNow {
        var held := EntriesOf(g);
        componentKillQueue := componentKillQueue + held;
        gameObjects := RemoveAt(gameObjects, i);
        assert componentKillQueue[|old(componentKillQueue)|..] == held;
      } else {
        var foundInit, j := FindLast(gameObjectInitQueue, g);
        if foundInit {
          gameObjectInitQueue := RemoveAt(gameObjectInitQueue, j);
        }
        assert componentKillQueue[|old(componentKillQueue)|..] == [];
      }
    }

    /** `killComponents`: each component on the kill queue is looked up, from
        the back, in the scene's list for the type it was killed as; if
        found it is erased there and a removal message is sent; otherwise
        the last init-queue entry holding it is erased. The kill queue is
        left empty. */
    method KillComponents()
      modifies this
      ensures var r := ComponentKills(old(components), old(componentInitQueue), old(componentKillQueue));
        State() == old(State()).(
          components := r.components,
          componentInitQueue := r.pending,
          componentKillQueue := [],
          messages := old(messages) + r.sent)
    {
      var kq := componentKillQueue;
      var k := 0;
      assert kq[..0] == [] && messages == old(messages) + [];
      while k < |kq|
        invariant k <= |kq|
        invariant var r := ComponentKills(old(components), old(componentInitQueue), kq[..k]);
          State() == old(State()).(
            components := r.components,
            componentInitQueue := r.pending,
            messages := old(messages) + r.sent)
      {
        var e := kq[k];
        ghost var r0 := ComponentKills(old(components), old(componentInitQueue), kq[..k]);
        assert ComponentKills(old(components), old(componentInitQueue), kq[..k + 1]) == KillOneComponent(r0, e) by {
          assert kq[..k + 1][..k] == kq[..k];
        }
        ghost var m0 := messages;
        KillComponent(e);
        ghost var step := KillOneComponent(ComponentKill(r0.components, r0.pending, []), e);
        assert KillOneComponent(r0, e) == ComponentKill(step.components, step.pending, r0.sent + step.sent);
        assert messages == old(messages) + (r0.sent + step.sent);
        k := k + 1;
      }
      assert kq[..k] == kq;
      componentKillQueue := [];
    }

    /** The body of the `killComponents` loop for one entry. */
    method KillComponent(e: Entry)
      modifies this
      ensures var r := KillOneComponent(ComponentKill(old(components), old(componentInitQueue), []), e);
        State() == old(State()).(
          components := r.components,
          componentInitQueue := r.pending,
          messages := old(messages) + r.sent)
    {
      var found, i := false, 0;
      if e.typeI in components {
        found, i := FindLast(components[e.typeI], e.comp);
      }
      if found {
        SendMessage(null, ComponentRemovedMessageT, ComponentRemoved(e.comp, e.typeI));
        components := components[e.typeI := RemoveAt(components[e.typeI], i)];
      } else {
        var foundInit, j := FindLast(Comps(componentInitQueue), e.comp);
        if foundInit {
          componentInitQueue := RemoveAt(componentInitQueue, j);
        }
        assert messages == old(messages) + [];
      }
    }

    /** `doKillQueue`: every component on the kill queue is first removed
        from its game object, then the objects and the components are
        killed. */
    method DoKillQueue()
      modifies this, Owners(componentKillQueue)
      ensures forall g :: g in Owners(old(componentKillQueue)) ==>
        g.State() == DetachAll(old(g.State()), OwnedBy(old(componentKillQueue), g))
      ensures var r := ObjectKills(old(gameObjects), old(gameObjectInitQueue), old(gameObjectKillQueue));
        gameObjects == r.active && gameObjectInitQueue == r.pending
      ensures gameObjectKillQueue == [] && componentKillQueue == []
      ensures receivers == old(receivers) && objectReceivers == old(objectReceivers)
      ensures var r := ObjectKills(old(gameObjects), old(gameObjectInitQueue), old(gameObjectKillQueue));
        exists q: seq<Entry> ::
          |old(componentKillQueue)| <= |q| && q[..|old(componentKillQueue)|] == old(componentKillQueue) &&
          (forall e :: e in q[|old(componentKillQueue)|..] <==> exists g :: g in r.killed && Holds(g, e)) &&
          var ck := ComponentKills(old(components), old(componentInitQueue), q);
          components == ck.components && componentInitQueue == ck.pending && messages == old(messages) + ck.sent
      ensures (forall t :: t in old(components) ==> NoDup(old(components)[t])) ==>
        var r := ObjectKills(old(gameObjects), old(gameObjectInitQueue), old(gameObjectKillQueue));
        components.Keys == old(components).Keys &&
        forall e: Entry :: e.typeI in old(components) && (e in old(componentKillQueue) || exists g :: g in r.killed && Holds(g, e)) ==>
          e.comp !in components[e.typeI]
    {
      DetachQueued(componentKillQueue);
      KillObjectsThenComponents();
    }

    /** The two kill passes of `doKillQueue`, after the queued components
        have been removed from their objects. */
    method KillObjectsThenComponents()
      modifies this
      ensures var r := ObjectKills(old(gameObjects), old(gameObjectInitQueue), old(gameObjectKillQueue));
        gameObjects == r.active && gameObjectInitQueue == r.pending
      ensures gameObjectKillQueue == [] && componentKillQueue == []
      ensures receivers == old(receivers) && objectReceivers == old(objectReceivers)
      ensures var r := ObjectKills(old(gameObjects), old(gameObjectInitQueue), old(gameObjectKillQueue));
        exists q: seq<Entry> ::
          |old(componentKillQueue)| <= |q| && q[..|old(componentKillQueue)|] == old(componentKillQueue) &&
          (forall e :: e in q[|old(componentKillQueue)|..] <==> exists g :: g in r.killed && Holds(g, e)) &&
          var ck := ComponentKills(old(components), old(componentInitQueue), q);
          components == ck.components && componentInitQueue == ck.pending && messages == old(messages) + ck.sent
      ensures (forall t :: t in old(components) ==> NoDup(old(components)[t])) ==>
        var r := ObjectKills(old(gameObjects), old(gameObjectInitQueue), old(gameObjectKillQueue));
        components.Keys == old(components).Keys &&
        forall e: Entry :: e.typeI in old(components) && (e in old(componentKillQueue) || exists g :: g in r.killed && Holds(g, e)) ==>
          e.comp !in components[e.typeI]
    {
      ghost var before := componentKillQueue;
      KillGameObjects();
      ghost var q := componentKillQueue;
      ghost var r := ObjectKills(old(gameObjects), old(gameObjectInitQueue), old(gameObjectKillQueue));
      KilledWithMembers(q, before, r.killed);
      KilledWereActive(old(gameObjects), old(gameObjectInitQueue), old(gameObjectKillQueue));
      ghost var killedSet := set g | g in r.killed;
      label Collected:
      KillComponents();
      assert unchanged@Collected(killedSet);
      if forall t :: t in old(components) ==> NoDup(old(components)[t]) {
        KillComponentsRemovesAll(old(components), old(componentInitQueue), q);
      }
    }

    /** `relayMessages`: while messages are queued, swap the queue out and
        hand each message, in order, to its object-level receivers and then
        its scene-level receivers; messages they send form the next round.
        `rounds` lists the queue contents each round started from. The loop
        of the source runs until a round sends nothing; here it also stops
        after `fuel` rounds. */
    method RelayMessages(respond: (Receiver, Message) -> seq<Message>, fuel: nat) returns (rounds: seq<seq<Message>>)
      modifies this
      ensures State() == old(State()).(messages := messages)
      ensures |rounds| <= fuel && (messages == [] || |rounds| == fuel)
      ensures rounds == [] ==> messages == old(messages)
      ensures rounds != [] ==> (rounds[0] == old(messages) &&
        messages == Responses(Deliveries(rounds[|rounds| - 1], objectReceivers, receivers), respond))
      ensures forall k :: 0 <= k < |rounds| ==> rounds[k] != []
      ensures forall k :: 0 <= k < |rounds| - 1 ==>
        rounds[k + 1] == Responses(Deliveries(rounds[k], objectReceivers, receivers), respond)
    {
      var objs, sr, queue := objectReceivers, receivers, messages;
      rounds := [];
      while queue != [] && |rounds| < fuel
        invariant |rounds| <= fuel
        invariant unchanged(this)
        invariant rounds == [] ==> queue == messages
        invariant rounds != [] ==> (rounds[0] == messages &&
          queue == Responses(Deliveries(rounds[|rounds| - 1], objs, sr), respond))
        invariant forall k :: 0 <= k < |rounds| ==> rounds[k] != []
        invariant forall k :: 0 <= k < |rounds| - 1 ==>
          rounds[k + 1] == Responses(Deliveries(rounds[k], objs, sr), respond)
        decreases fuel - |rounds|
      {
        var buffer := queue;
        ghost var before := rounds;
        queue := RelayRound(buffer, objs, sr, respond);
        rounds := rounds + [buffer];
        forall k | 0 <= k < |rounds| - 1
          ensures rounds[k + 1] == Responses(Deliveries(rounds[k], objs, sr), respond)
        {
          if k < |before| - 1 {
            assert rounds[k] == before[k] && rounds[k + 1] == before[k + 1];
          }
        }
      }
      messages := queue;
    }
  }

  /** One round of `relayMessages`: every buffered message, in order, to
      every one of its receivers, collecting what they send. */
  method RelayRound(buffer: seq<Message>, objs: map<GameObject, map<TypeId, seq<Receiver>>>,
                    sr: map<TypeId, seq<Receiver>>, respond: (Receiver, Message) -> seq<Message>)
    returns (sent: seq<Message>)
    ensures sent == Responses(Deliveries(buffer, objs, sr), respond)
  {
    sent := [];
    var i := 0;
    while i < |buffer|
      invariant i <= |buffer|
      invariant sent == Responses(Deliveries(buffer[..i], objs, sr), respond)
    {
      var m := buffer[i];
      // object-level receivers, then scene-level ones
      sent := Deliver(sent, ObjectReceivers(m, objs), m, respond);
      sent := Deliver(sent, Lookup(sr, m.msgType), m, respond);
      RoundStep(buffer, i, objs, sr, respond);
      i := i + 1;
    }
    assert buffer[..i] == buffer;
  }

  /** A round's calls for one more message: those to its object-level
      receivers, then those to its scene-level receivers. */
  lemma RoundStep(buffer: seq<Message>, i: nat, objs: map<GameObject, map<TypeId, seq<Receiver>>>,
                  sr: map<TypeId, seq<Receiver>>, respond: (Receiver, Message) -> seq<Message>)
    requires i < |buffer|
    ensures Responses(Deliveries(buffer[..i + 1], objs, sr), respond) ==
      Responses(Deliveries(buffer[..i], objs, sr), respond)
      + Responses(Pairs(ObjectReceivers(buffer[i], objs), buffer[i]), respond)
      + Responses(Pairs(Lookup(sr, buffer[i].msgType), buffer[i]), respond)
  {
    var m := buffer[i];
    var rs, ss := ObjectReceivers(m, objs), Lookup(sr, m.msgType);
    DeliveriesStep(buffer, i, objs, sr);
    PairsAppend(rs, ss, m);
    ResponsesOfThree(Deliveries(buffer[..i], objs, sr), Pairs(rs, m), Pairs(ss, m), respond);
  }

  /** The calls for a buffer one message longer. */
  lemma DeliveriesStep(buffer: seq<Message>, i: nat, objs: map<GameObject, map<TypeId, seq<Receiver>>>,
                       sr: map<TypeId, seq<Receiver>>)
    requires i < |buffer|
    ensures Deliveries(buffer[..i + 1], objs, sr) ==
      Deliveries(buffer[..i], objs, sr) + Pairs(ReceiversOf(buffer[i], objs, sr), buffer[i])
  {
    assert buffer[..i + 1][..i] == buffer[..i];
  }

  /** What three runs of calls send, one after the other. */
  lemma ResponsesOfThree(a: seq<(Receiver, Message)>, b: seq<(Receiver, Message)>, c: seq<(Receiver, Message)>,
                         respond: (Receiver, Message) -> seq<Message>)
    ensures Responses(a + (b + c), respond) == Responses(a, respond) + Responses(b, respond) + Responses(c, respond)
  {
    ResponsesAppend(a, b + c, respond);
    ResponsesAppend(b, c, respond);
    var x, y, z := Responses(a, respond), Responses(b, respond), Responses(c, respond);
    assert x + (y + z) == x + y + z;
  }

  /** An inner loop of a round: m to each receiver of rs in turn, what
      they send appended to what was sent before. */
  method Deliver(sent: seq<Message>, rs: seq<Receiver>, m: Message, respond: (Receiver, Message) -> seq<Message>)
    returns (out: seq<Message>)
    ensures out == sent + Responses(Pairs(rs, m), respond)
  {
    out := sent;
    var j := 0;
    while j < |rs|
      invariant j <= |rs|
      invariant out == sent + Responses(Pairs(rs[..j], m), respond)
    {
      assert rs[..j + 1][..j] == rs[..j];
      out := out + respond(rs[j], m);
      j := j + 1;
    }
    assert rs[..j] == rs;
  }

  /** The entries collected for the objects killed so far, followed by
      those of g when it is killed now, are the entries held by the
      objects killed so far and g. */
  lemma CollectedStep(added: seq<Entry>, now: seq<Entry>, killed0: seq<GameObject>, g: GameObject, killedNow: bool)
    requires forall e :: e in added <==> exists h :: h in killed0 && Holds(h, e)
    requires forall e :: e in now <==> killedNow && Holds(g, e)
    ensures forall e :: e in added + now <==>
      exists h :: h in killed0 + (if killedNow then [g] else []) && Holds(h, e)
  {
    var killed1 := killed0 + (if killedNow then [g] else []);
    forall e
      ensures e in added + now <==> exists h :: h in killed1 && Holds(h, e)
    {
      if e in now {
        assert g in killed1;
      }
      if e in added {
        var h :| h in killed0 && Holds(h, e);
        assert h in killed1;
      }
      forall h | h in killed1 && Holds(h, e)
        ensures e in added + now
      {
        if h != g {
          assert h in killed0;
        }
      }
    }
  }

  /** Only active objects are ever killed. */
  lemma {:induction false} KilledWereActive(active: seq<GameObject>, pending: seq<GameObject>, kq: seq<GameObject>)
    ensures forall g :: g in ObjectKills(active, pending, kq).killed ==> g in active
    ensures forall g :: g in ObjectKills(active, pending, kq).active ==> g in active
  {
    if kq != [] {
      var p := kq[..|kq| - 1];
      KilledWereActive(active, pending, p);
      KilledActiveStep(ObjectKills(active, pending, p), kq[|kq| - 1], active);
    }
  }

  lemma KilledActiveStep(r: ObjectKill, g: GameObject, active: seq<GameObject>)
    requires forall h :: h in r.killed ==> h in active
    requires forall h :: h in r.active ==> h in active
    ensures forall h :: h in KillOneObject(r, g).killed ==> h in active
    ensures forall h :: h in KillOneObject(r, g).active ==> h in active
  {
    RemoveLastSubset(r.active, g);
  }

  /** Whatever was on the component kill queue before `killGameObjects`,
      or is held by an object it killed, is on the queue it leaves. */
  lemma KilledWithMembers(q: seq<Entry>, before: seq<Entry>, killed: seq<GameObject>)
    requires |before| <= |q| && q[..|before|] == before
    requires forall e :: e in q[|before|..] <==> exists g :: g in killed && Holds(g, e)
    ensures forall e :: e in before || (exists g :: g in killed && Holds(g, e)) ==> e in q
  {
    forall e | e in before || (exists g :: g in killed && Holds(g, e))
      ensures e in q
    {
      if e in before {
        var j :| 0 <= j < |before| && before[j] == e;
        assert q[j] == e;
      } else {
        assert e in q[|before|..];
        var j :| 0 <= j < |q| - |before| && q[|before|..][j] == e;
        assert q[|before| + j] == e;
      }
    }
  }

  /** The (type, component) pairs a game object holds. */
  predicate Holds(g: GameObject, e: Entry)
    reads g
  {
    e.typeI in g.compsByCompT && e.comp in g.compsByCompT[e.typeI]
  }

  /** The walk of `killGameObjects` over an object's map of component
      lists, in the map's iteration order: every pair the object holds,
      and nothing else. */
  method EntriesOf(g: GameObject) returns (es: seq<Entry>)
    ensures forall e :: e in es <==> Holds(g, e)
  {
    es := [];
    var keys := g.compsByCompT.Keys;
    while keys != {}
      invariant keys <= g.compsByCompT.Keys
      invariant forall e :: e in es <==> Holds(g, e) && e.typeI !in keys
      decreases |keys|
    {
      var t :| t in keys;
      var list := g.compsByCompT[t];
      var j := 0;
      while j < |list|
        invariant j <= |list|
        invariant forall e :: e in es <==>
          (Holds(g, e) && e.typeI !in keys) || (e.typeI == t && e.comp in list[..j])
      {
        assert list[..j + 1] == list[..j] + [list[j]];
        es := es + [Entry(t, list[j])];
        j := j + 1;
      }
      assert list[..j] == list;
      keys := keys - {t};
    }
  }
}
