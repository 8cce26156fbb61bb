/** `GrenadeComponent`: a grenade detonates on its third bounce, or as
    soon as its own bounder hits an object that has a HealthComponent.
    Once set, the detonation flag is never cleared; every update while
    it is set creates a blast object and destroys the grenade. */
module Weapons {
  import opened Vectors
  import opened Entities
  import Scene

  /** The bounce count that triggers detonation. */
  const MaxBounces: nat := 3

  /** The messages a grenade receives: a bounce, or a collision whose
      first bounder is (or is not) the grenade's own and whose other
      object does (or does not) have health. */
  datatype Event = Bounce | Collision(ownBounder: bool, otherHasHealth: bool)

  /** A grenade's counters. */
  datatype Fuse = Fuse(nBounces: nat, shouldDetonate: bool)

  /** A new grenade. */
  const Lit := Fuse(0, false)

  /** One callback. */
  function Step(f: Fuse, e: Event): Fuse
  {
    match e
    case Bounce => Fuse(f.nBounces + 1, f.shouldDetonate || f.nBounces + 1 >= MaxBounces)
    case Collision(own, health) => f.(shouldDetonate := f.shouldDetonate || (own && health))
  }

  /** The callbacks of a sequence of events, in order. */
  function Run(f: Fuse, events: seq<Event>): Fuse
    decreases |events|
  {
    if events == [] then f else Run(Step(f, events[0]), events[1..])
  }

  /** The number of bounces among the events. */
  function Bounces(events: seq<Event>): nat
    decreases |events|
  {
    if events == [] then 0 else (if events[0].Bounce? then 1 else 0) + Bounces(events[1..])
  }

  /** Whether some event is a hit of the own bounder on an object with
      health. */
  predicate HitsHealth(events: seq<Event>)
  {
    exists i :: 0 <= i < |events| && events[i] == Collision(true, true)
  }

  /** From any fuse, the bounces add up and the flag, once set, stays
      set; it ends up set exactly when it was, when the total reaches the
      limit, or when some collision counts. */
  lemma {:induction false} RunCounts(f: Fuse, events: seq<Event>)
    requires f.nBounces >= MaxBounces ==> f.shouldDetonate
    ensures Run(f, events).nBounces == f.nBounces + Bounces(events)
    ensures Run(f, events).shouldDetonate <==>
      f.shouldDetonate || f.nBounces + Bounces(events) >= MaxBounces || HitsHealth(events)
    decreases |events|
  {
    if events != [] {
      RunCounts(Step(f, events[0]), events[1..]);
      HitsHealthStep(events);
    }
  }

  /** A hit occurs among the events exactly when it is the first event or
      occurs among the rest. */
  lemma HitsHealthStep(events: seq<Event>)
    requires events != []
    ensures HitsHealth(events) <==> events[0] == Collision(true, true) || HitsHealth(events[1..])
  {
    if HitsHealth(events[1..]) {
      var i :| 0 <= i < |events[1..]| && events[1..][i] == Collision(true, true);
      assert events[i + 1] == Collision(true, true);
    }
    if HitsHealth(events) {
      var i :| 0 <= i < |events| && events[i] == Collision(true, true);
      if i > 0 {
        assert events[1..][i - 1] == Collision(true, true);
      }
    }
  }

  /** A new grenade detonates exactly after three bounces or a hit on
      something with health. */
  lemma DetonatesWhen(events: seq<Event>)
    ensures Run(Lit, events).shouldDetonate <==> Bounces(events) >= MaxBounces || HitsHealth(events)
  {
    RunCounts(Lit, events);
  }

  /** The detonation branch of the grenade's update: a blast object with
      a spatial component, a sphere bounder registered as a bounder and a
      blast component is queued, and the grenade's object g is queued for
      destruction. */
  method SpawnBlast(scene: Scene.Scene, g: GameObject) returns (blast: GameObject, parts: seq<Component>)
    modifies scene
    ensures fresh(blast) && |parts| == 3
    ensures forall c :: c in parts ==> fresh(c) && c.owner == blast
    ensures scene.State() == old(scene.State()).(
      gameObjectInitQueue := old(scene.gameObjectInitQueue) + [blast],
      componentInitQueue := old(scene.componentInitQueue) + [
        Scene.Entry(SpatialComponentT, parts[0]),
        Scene.Entry(BounderComponentT, parts[1]),
        Scene.Entry(BlastComponentT, parts[2])],
      gameObjectKillQueue := old(scene.gameObjectKillQueue) + [g])
    ensures parts[0].kind == SpatialComponentT && parts[1].kind == SphereBounderComponentT &&
      parts[2].kind == BlastComponentT
  {
    var b := scene.CreateGameObject();
    var spatial := scene.AddComponent(b, SpatialComponentT);
    var sphere := scene.AddComponentAs(b, SphereBounderComponentT, BounderComponentT);
    var blastPart := scene.AddComponent(b, BlastComponentT);
    scene.DestroyGameObject(g);
    blast, parts := b, [spatial, sphere, blastPart];
  }

  class GrenadeComponent {
    const gameObject: GameObject
    const damage: real
    const radius: real
    /** `m_bounder`: the grenade's BounderComponent, found at init. */
    var bounder: Component?
    var shouldDetonate: bool
    var nBounces: nat

    function State(): Fuse
      reads this
    {
      Fuse(nBounces, shouldDetonate)
    }

    predicate Valid()
      reads this
    {
      nBounces >= MaxBounces ==> shouldDetonate
    }

    /** A new grenade: not detonating, no bounces. */
    constructor (gameObject: GameObject, damage: real, radius: real)
      ensures State() == Lit && Valid() && bounder == null
      ensures this.gameObject == gameObject && this.damage == damage && this.radius == radius
    {
      this.gameObject := gameObject;
      this.damage := damage;
      this.radius := radius;
      bounder := null;
      shouldDetonate := false;
      nBounces := 0;
    }

    /** ProjectileComponent::init: the bounder found on the game object. */
    method Init(b: Component)
      modifies this
      ensures bounder == b && State() == old(State())
    {
      bounder := b;
    }

    /** The bounce callback: `++m_nBounces >= 3` sets the flag. */
    method OnBounce()
      requires Valid()
      modifies this
      ensures State() == Step(old(State()), Bounce) && Valid()
      ensures old(shouldDetonate) ==> shouldDetonate
    {
      nBounces := nBounces + 1;
      if nBounces >= MaxBounces {
        shouldDetonate := true;
      }
    }

    /** The collision callback: bounder1 is the grenade's own and the
        other object has health. */
    method OnCollision(bounder1: Component, otherHasHealth: bool)
      requires Valid()
      modifies this
      ensures State() == Step(old(State()), Collision(bounder1 == bounder, otherHasHealth)) && Valid()
      ensures old(shouldDetonate) ==> shouldDetonate
    {
      if bounder1 == bounder {
        if otherHasHealth {
          shouldDetonate := true;
        }
      }
    }

    /** update: when detonating, a blast object with a spatial component,
        a sphere bounder registered as a bounder and a blast component is
        queued, and the grenade's object is queued for destruction;
        otherwise the scene is untouched. */
    method Update(scene: Scene.Scene) returns (blast: GameObject?, parts: seq<Component>)
      modifies scene
      ensures !shouldDetonate ==> blast == null && parts == [] && scene.State() == old(scene.State())
      ensures shouldDetonate ==> blast != null && fresh(blast) && |parts| == 3
      ensures shouldDetonate ==> forall c :: c in parts ==> fresh(c) && c.owner == blast
      ensures shouldDetonate ==> scene.State() == old(scene.State()).(
        gameObjectInitQueue := old(scene.gameObjectInitQueue) + [blast],
        componentInitQueue := old(scene.componentInitQueue) + [
          Scene.Entry(SpatialComponentT, parts[0]),
          Scene.Entry(BounderComponentT, parts[1]),
          Scene.Entry(BlastComponentT, parts[2])],
        gameObjectKillQueue := old(scene.gameObjectKillQueue) + [gameObject])
      ensures shouldDetonate ==> (parts[0].kind == SpatialComponentT &&
        parts[1].kind == SphereBounderComponentT && parts[2].kind == BlastComponentT)
    {
      if !shouldDetonate {
        return null, [];
      }
      blast, parts := SpawnBlast(scene, gameObject);
    }
  }
}
