/** `EnemyComponent`: hit points that damage lowers and healing raises;
    an update destroys the enemy's object once its hit points are at or
    below zero. `Util::isLE`, an approximate comparison whose definition
    is not part of this model, is a parameter. */
module Enemies {
  import opened Entities
  import Scene

  class EnemyComponent {
    const gameObject: GameObject
    var hp: real

    constructor (gameObject: GameObject, hp: real)
      ensures this.gameObject == gameObject && this.hp == hp
    {
      this.gameObject := gameObject;
      this.hp := hp;
    }

    /** damage: hp falls by the amount. */
    method Damage(amount: real)
      modifies this
      ensures hp == old(hp) - amount
    {
      hp := hp - amount;
    }

    /** heal: hp rises by the amount. */
    method Heal(amount: real)
      modifies this
      ensures hp == old(hp) + amount
    {
      hp := hp + amount;
    }

    /** setHP: hp becomes the amount. */
    method SetHP(amount: real)
      modifies this
      ensures hp == amount
    {
      hp := amount;
    }

    /** update: the object is queued for destruction exactly when
        isLE(hp, 0) holds; nothing else changes. */
    method Update(scene: Scene.Scene, isLE: (real, real) -> bool)
      modifies scene
      ensures isLE(hp, 0.0) ==>
        scene.State() == old(scene.State()).(gameObjectKillQueue := old(scene.gameObjectKillQueue) + [gameObject])
      ensures !isLE(hp, 0.0) ==> scene.State() == old(scene.State())
    {
      if isLE(hp, 0.0) {
        scene.DestroyGameObject(gameObject);
      }
    }
  }

  /** A hit followed by the next update queues the enemy's object for
      destruction exactly when the hit points left are at or below zero by
      `isLE`, and otherwise leaves the scene as it was. */
  method DamageThenUpdate(e: EnemyComponent, scene: Scene.Scene, amount: real, isLE: (real, real) -> bool)
    modifies e, scene
    ensures e.hp == old(e.hp) - amount
    ensures isLE(old(e.hp) - amount, 0.0) ==>
      scene.State() == old(scene.State()).(gameObjectKillQueue := old(scene.gameObjectKillQueue) + [e.gameObject])
    ensures !isLE(old(e.hp) - amount, 0.0) ==> scene.State() == old(scene.State())
  {
    e.Damage(amount);
    e.Update(scene, isLE);
  }
}
