/**
 The entity-component world the systems run against. Each component
 storage is a finite map from entity to value, each tag component a set of
 entities. Deletion is deferred: `Delete` only marks an entity, and
 `Maintain`, called once between frames, removes every marked entity from
 the world and from all its storages.

 Entity identities are plain numbers that are never reused; this stands
 for the generation-tagged identities of the ECS library, which also never
 compare equal to a deleted entity's identity.
 */
module Ecs {
  import opened Components

  type Entity = nat

  class World {
    var entities: set<Entity>
    var killed: set<Entity>
    var nextId: Entity

    var positions: map<Entity, Position>
    var velocities: map<Entity, Velocity>
    var sprites: map<Entity, Sprite>
    var animations: map<Entity, MovementAnimation>

    var keyboardControlled: set<Entity>
    var enemies: set<Entity>
    var items: set<Entity>

    /** Every storage and tag holds live entities only, pending deletions are
        live, and no live entity has an identity at or above `nextId`. */
    ghost predicate Valid()
      reads this
    {
      && killed <= entities
      && positions.Keys <= entities
      && velocities.Keys <= entities
      && sprites.Keys <= entities
      && animations.Keys <= entities
      && keyboardControlled <= entities
      && enemies <= entities
      && items <= entities
      && forall e :: e in entities ==> e < nextId
    }

    constructor ()
      ensures Valid()
      ensures entities == {} && killed == {}
      ensures positions == map[] && velocities == map[]
      ensures sprites == map[] && animations == map[]
      ensures keyboardControlled == {} && enemies == {} && items == {}
    {
      entities, killed, nextId := {}, {}, 0;
      positions, velocities, sprites, animations := map[], map[], map[], map[];
      keyboardControlled, enemies, items := {}, {}, {};
    }

    /** Allocates a fresh entity with no components. */
    method CreateEntity() returns (e: Entity)
      requires Valid()
      modifies this`entities, this`nextId
      ensures Valid()
      ensures e !in old(entities)
      ensures entities == old(entities) + {e}
    {
      e := nextId;
      entities := entities + {e};
      nextId := nextId + 1;
    }

    /** Marks `e` for removal at the next `Maintain`. Deleting an entity that
        is not alive is an error the game discards, so it changes nothing;
        deleting an entity already marked changes nothing either. */
    method Delete(e: Entity)
      requires Valid()
      modifies this`killed
      ensures Valid()
      ensures killed == old(killed) + (if e in entities then {e} else {})
      ensures e in old(killed) ==> killed == old(killed)
    {
      if e in entities {
        killed := killed + {e};
      }
    }

    /** Removes every marked entity together with all of its components;
        nothing else is removed and no component value changes. */
    method Maintain()
      requires Valid()
      modifies this
      ensures Valid()
      ensures killed == {} && nextId == old(nextId)
      ensures entities == old(entities) - old(killed)
      ensures positions == old(positions) - old(killed)
      ensures velocities == old(velocities) - old(killed)
      ensures sprites == old(sprites) - old(killed)
      ensures animations == old(animations) - old(killed)
      ensures keyboardControlled == old(keyboardControlled) - old(killed)
      ensures enemies == old(enemies) - old(killed)
      ensures items == old(items) - old(killed)
    {
      entities := entities - killed;
      positions := positions - killed;
      velocities := velocities - killed;
      sprites := sprites - killed;
      animations := animations - killed;
      keyboardControlled := keyboardControlled - killed;
      enemies := enemies - killed;
      items := items - killed;
      killed := {};
    }
  }
}
