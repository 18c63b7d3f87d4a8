/** What the primitives of the entity store and one simulation step do to every
    component of every entity, told entity by entity. */
module WorldLaws {
  import opened Ecs

  /** The two worlds agree on everything about `e` but its mark. */
  predicate Alike(v: WorldState, w: WorldState, e: Entity) {
    (e in w.alive <==> e in v.alive) &&
    SamePart(v.positions, w.positions, e) && SamePart(v.velocities, w.velocities, e) && SamePart(v.healths, w.healths, e) &&
    SamePart(v.colliders, w.colliders, e) && SamePart(v.zones, w.zones, e) && SamePart(v.sensors, w.sensors, e)
  }

  predicate SamePart<T(==)>(m: map<Entity, T>, n: map<Entity, T>, e: Entity) {
    (e in n <==> e in m) && (e in m ==> n[e] == m[e])
  }

  /** Nothing about anybody but `e` differs, marks included. */
  ghost predicate OnlyChanges(v: WorldState, w: WorldState, e: Entity) {
    forall x | x != e :: Alike(v, w, x) && (x in w.dirty <==> x in v.dirty)
  }

  /** The entity is nowhere in the world. */
  predicate Gone(w: WorldState, e: Entity) {
    e !in w.alive && e !in w.positions && e !in w.velocities && e !in w.healths && e !in w.colliders && e !in w.zones &&
    e !in w.sensors && e !in w.dirty
  }

  lemma DestroyTakesExactly(w: WorldState, e: Entity)
    ensures var r := w.Destroy(e); Gone(r, e) && OnlyChanges(w, r, e) && r.nextID == w.nextID
  {
  }

  /** A restored entity is alive with exactly the saved components that the save
      has; it is not marked, and whatever else it was stays. */
  lemma RestoreWritesOne(w: WorldState, e: Entity, p: Position, v: Velocity, h: Health, hasHealth: bool)
    ensures var r := w.Restore(e, p, v, h, hasHealth);
            OnlyChanges(w, r, e) && (e in r.dirty <==> e in w.dirty) && e in r.alive &&
            e in r.positions && r.positions[e] == p && e in r.velocities && r.velocities[e] == v &&
            (e in r.healths <==> hasHealth) && (hasHealth ==> r.healths[e] == h) &&
            SamePart(w.colliders, r.colliders, e) && SamePart(w.zones, r.zones, e) && SamePart(w.sensors, r.sensors, e)
  {
  }

  // ---------------------------------------------------------------- one simulation step

  predicate Mover(w: WorldState, e: Entity) {
    e in w.alive && e in w.positions && e in w.velocities
  }

  /** Where the entity is after `dt` seconds: each coordinate has grown by that of the velocity times `dt`. */
  predicate Travelled(p: Position, v: Velocity, dt: real, q: Position) {
    q.x - p.x == v.vx * dt && q.y - p.y == v.vy * dt && q.z - p.z == v.vz * dt
  }

  /** Movement: exactly the living with position and velocity travel and are marked; nothing else changes. */
  lemma MovementTravels(w: WorldState, dt: real, e: Entity)
    ensures var r := w.Moved(dt);
            (e in r.positions <==> e in w.positions) && (e in r.dirty <==> e in w.dirty || Mover(w, e)) &&
            (Mover(w, e) ==> Travelled(w.positions[e], w.velocities[e], dt, r.positions[e])) &&
            (e in w.positions && !Mover(w, e) ==> r.positions[e] == w.positions[e])
    ensures var r := w.Moved(dt);
            r == w.(positions := r.positions, dirty := r.dirty)
  {
  }

  predicate HurtNow(w: WorldState, e: Entity) {
    e in w.alive && e in w.healths && w.healths[e].hp < w.healths[e].maxHP
  }

  /** Regeneration: exactly the living below their maximum gain `rate` points per
      second, never past the maximum, and are marked; nothing else changes. */
  lemma RegenerationHeals(w: WorldState, rate: real, dt: real, e: Entity)
    requires rate > 0.0 && dt >= 0.0
    ensures var r := w.Regenerated(rate, dt);
            (e in r.healths <==> e in w.healths) && (e in r.dirty <==> e in w.dirty || HurtNow(w, e)) &&
            (HurtNow(w, e) ==>
               (r.healths[e].maxHP == w.healths[e].maxHP && w.healths[e].hp <= r.healths[e].hp <= w.healths[e].maxHP &&
                (r.healths[e].hp == w.healths[e].hp + rate * dt || (r.healths[e].hp == w.healths[e].maxHP && w.healths[e].hp + rate * dt > w.healths[e].maxHP)))) &&
            (e in w.healths && !HurtNow(w, e) ==> r.healths[e] == w.healths[e])
    ensures var r := w.Regenerated(rate, dt); r == w.(healths := r.healths, dirty := r.dirty)
  {
    NotNegative(rate, dt);
  }

  lemma NotNegative(rate: real, dt: real)
    requires rate > 0.0 && dt >= 0.0
    ensures rate * dt >= 0.0
  {
  }
}
