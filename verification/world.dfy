/** The entity store of one cell: component maps keyed by entity id, the id
    counter, and the set of entities whose replicated fields changed. */
module Ecs {

  type Entity = nat

  /** Entity ids are unsigned 64-bit in the program; the counter wraps here. */
  const ID_SPACE: nat := 0x1_0000_0000_0000_0000

  datatype Position = Position(x: real, y: real, z: real)
  datatype Velocity = Velocity(vx: real, vy: real, vz: real)
  datatype Health = Health(hp: real, maxHP: real)
  datatype Collider = Collider(halfX: real, halfY: real, halfZ: real)
  datatype TriggerZone = TriggerZone(id: string, halfX: real, halfY: real, halfZ: real)
  datatype TriggerSensor = TriggerSensor(halfX: real, halfY: real, halfZ: real)

  const ORIGIN := Position(0.0, 0.0, 0.0)
  const STILL := Velocity(0.0, 0.0, 0.0)

  /** The value of a world: what `World.State` abstracts to. */
  datatype WorldState = WorldState(
    nextID: Entity,
    alive: set<Entity>,
    positions: map<Entity, Position>,
    velocities: map<Entity, Velocity>,
    healths: map<Entity, Health>,
    colliders: map<Entity, Collider>,
    zones: map<Entity, TriggerZone>,
    sensors: map<Entity, TriggerSensor>,
    dirty: set<Entity>)
  {
    /** Every living id was handed out by the counter and 0 names no entity. */
    ghost predicate IdsBelowCounter() {
      nextID < ID_SPACE && forall e <- alive :: 1 <= e <= nextID
    }

    /** The counter has at least one id left before it wraps. */
    predicate HasRoom() {
      nextID + 1 < ID_SPACE
    }

    function Created(): Entity {
      (nextID + 1) % ID_SPACE
    }

    function Create(): WorldState {
      this.(nextID := Created(), alive := alive + {Created()})
    }

    function Destroy(e: Entity): WorldState {
      this.(alive := alive - {e},
        positions := positions - {e}, velocities := velocities - {e}, healths := healths - {e},
        colliders := colliders - {e}, zones := zones - {e}, sensors := sensors - {e},
        dirty := dirty - {e})
    }

    function SetPosition(e: Entity, p: Position): WorldState {
      this.(positions := positions[e := p], dirty := dirty + {e})
    }

    function SetVelocity(e: Entity, v: Velocity): WorldState {
      this.(velocities := velocities[e := v])
    }

    function SetHealth(e: Entity, h: Health): WorldState {
      this.(healths := healths[e := h], dirty := dirty + {e})
    }

    function VelocityOrStill(e: Entity): Velocity {
      if e in velocities then velocities[e] else STILL
    }

    /** Puts an entity back under an explicit id; the counter moves past it and,
        like every unsigned addition of the program, wraps. */
    function Restore(e: Entity, p: Position, v: Velocity, h: Health, hasHealth: bool): WorldState {
      this.(alive := alive + {e},
        positions := positions[e := p],
        velocities := velocities[e := v],
        healths := if hasHealth then healths[e := h] else healths - {e},
        nextID := if e >= nextID then (e + 1) % ID_SPACE else nextID)
    }

    /** One movement step: every living entity with position and velocity is
        moved and marked. */
    function Moved(dt: real): WorldState {
      var movers := set e <- alive | e in positions && e in velocities;
      this.(positions := map e <- positions ::
                           if e in movers then Advance(positions[e], velocities[e], dt) else positions[e],
        dirty := dirty + movers)
    }

    /** One regeneration step at `rate` points per second, capped at the maximum. */
    function Regenerated(rate: real, dt: real): WorldState {
      var hurt := set e <- alive | e in healths && healths[e].hp < healths[e].maxHP;
      if rate <= 0.0 then this
      else this.(healths := map e <- healths :: if e in hurt then Heal(healths[e], rate * dt) else healths[e],
                 dirty := dirty + hurt)
    }
  }

  function Advance(p: Position, v: Velocity, dt: real): Position {
    Position(p.x + v.vx * dt, p.y + v.vy * dt, p.z + v.vz * dt)
  }

  function Heal(h: Health, amount: real): Health {
    if h.hp + amount > h.maxHP then h.(hp := h.maxHP) else h.(hp := h.hp + amount)
  }

  const EMPTY_WORLD := WorldState(0, {}, map[], map[], map[], map[], map[], map[], {})

  /** The world object: each method is one primitive of the store. */
  class World {
    var nextID: Entity
    var alive: set<Entity>
    var positions: map<Entity, Position>
    var velocities: map<Entity, Velocity>
    var healths: map<Entity, Health>
    var colliders: map<Entity, Collider>
    var zones: map<Entity, TriggerZone>
    var sensors: map<Entity, TriggerSensor>
    var dirty: set<Entity>

    function State(): WorldState
      reads this
    {
      WorldState(nextID, alive, positions, velocities, healths, colliders, zones, sensors, dirty)
    }

    constructor ()
      ensures State() == EMPTY_WORLD
    {
      nextID, alive, dirty := 0, {}, {};
      positions, velocities, healths := map[], map[], map[];
      colliders, zones, sensors := map[], map[], map[];
    }

    method CreateEntity() returns (e: Entity)
      modifies this
      ensures e == old(State()).Created() && State() == old(State()).Create()
      ensures old(State().IdsBelowCounter() && State().HasRoom()) ==>
                e !in old(alive) && e != 0 && State().IdsBelowCounter()
    {
      nextID := (nextID + 1) % ID_SPACE;
      e := nextID;
      alive := alive + {e};
    }

    method DestroyEntity(e: Entity)
      modifies this
      ensures State() == old(State()).Destroy(e)
    {
      alive := alive - {e};
      positions, velocities, healths := positions - {e}, velocities - {e}, healths - {e};
      colliders, zones, sensors := colliders - {e}, zones - {e}, sensors - {e};
      dirty := dirty - {e};
    }

    method SetPosition(e: Entity, p: Position)
      modifies this
      ensures State() == old(State()).SetPosition(e, p)
    {
      positions := positions[e := p];
      dirty := dirty + {e};
    }

    method SetVelocity(e: Entity, v: Velocity)
      modifies this
      ensures State() == old(State()).SetVelocity(e, v)
    {
      velocities := velocities[e := v];
    }

    method SetHealth(e: Entity, h: Health)
      modifies this
      ensures State() == old(State()).SetHealth(e, h)
    {
      healths := healths[e := h];
      dirty := dirty + {e};
    }

    method RestorePersistEntity(e: Entity, p: Position, v: Velocity, h: Health, hasHealth: bool)
      modifies this
      ensures State() == old(State()).Restore(e, p, v, h, hasHealth)
    {
      alive := alive + {e};
      positions := positions[e := p];
      velocities := velocities[e := v];
      if hasHealth {
        healths := healths[e := h];
      } else {
        healths := healths - {e};
      }
      if e >= nextID {
        nextID := (e + 1) % ID_SPACE;
      }
    }

    /** Hands the pending entities to one caller, each once, and forgets them. */
    method TakeDirtyEntities() returns (out: seq<Entity>)
      modifies this
      ensures State() == old(State()).(dirty := {})
      ensures forall e :: e in out <==> e in old(dirty)
      ensures |out| == |old(dirty)|
    {
      out := [];
      var rest := dirty;
      while rest != {}
        invariant rest <= dirty && |out| + |rest| == |dirty|
        invariant forall e :: e in out <==> e in dirty - rest
      {
        var e :| e in rest;
        rest := rest - {e};
        out := out + [e];
      }
      dirty := {};
    }
  }

  /** The next id is fresh and the id bound survives exactly when the counter
      has room; a full counter hands out 0. */
  lemma CreateIsFresh(w: WorldState)
    requires w.IdsBelowCounter()
    ensures w.HasRoom() <==> w.Create().IdsBelowCounter()
    ensures w.HasRoom() ==> w.Created() !in w.alive && w.Created() != 0
  {
    if !w.HasRoom() {
      assert w.Created() == 0;
      assert 0 in w.Create().alive;
    }
  }

  /** The next `k` entities all get ids that are new and not 0. */
  predicate AllNew(w: WorldState, k: nat)
    decreases k
  {
    k > 0 ==> w.Created() != 0 && w.Created() !in w.alive && AllNew(w.Create(), k - 1)
  }

  /** How long fresh ids last, for any counter and any living ids. */
  lemma {:induction false} AllNewExactly(w: WorldState, k: nat)
    requires w.nextID < ID_SPACE
    ensures AllNew(w, k) <==> w.nextID + k < ID_SPACE && forall e <- w.alive :: !(w.nextID < e <= w.nextID + k)
    decreases k
  {
    if k > 0 && w.HasRoom() {
      AllNewExactly(w.Create(), k - 1);
      assert w.Created() in w.Create().alive;
    }
  }

  /** Fresh ids are handed out for as long as the counter does not wrap. */
  ghost predicate FreshWhileTheyLast(w: WorldState) {
    forall k: nat :: FreshFor(w, k)
  }

  predicate FreshFor(w: WorldState, k: nat) {
    AllNew(w, k) <==> w.nextID + k < ID_SPACE
  }

  lemma FreshExactly(w: WorldState)
    requires w.nextID < ID_SPACE && forall e <- w.alive :: 1 <= e < ID_SPACE
    ensures FreshWhileTheyLast(w) <==> w.IdsBelowCounter()
  {
    if w.IdsBelowCounter() {
      forall k: nat ensures FreshFor(w, k) {
        AllNewExactly(w, k);
      }
    } else {
      var e :| e in w.alive && e > w.nextID;
      AllNewExactly(w, e - w.nextID);
      assert !FreshFor(w, e - w.nextID);
    }
  }

  /** Restoring an explicit id keeps the id bound exactly when the id is
      positive and its successor does not wrap. */
  lemma RestoreKeepsIds(w: WorldState, e: Entity, p: Position, v: Velocity, h: Health, hasHealth: bool)
    requires w.IdsBelowCounter() && e < ID_SPACE
    ensures w.Restore(e, p, v, h, hasHealth).IdsBelowCounter() <==> 1 <= e && e + 1 < ID_SPACE
  {
    var r := w.Restore(e, p, v, h, hasHealth);
    assert e in r.alive;
    if e + 1 == ID_SPACE {
      assert r.nextID == 0;
    }
  }
}
