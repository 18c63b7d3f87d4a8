/** The simulation systems of one step, entity by entity. */
module Systems {
  import opened Ecs

  /** The world with the movement step done for `done` only. */
  ghost function MovedFor(w: WorldState, done: set<Entity>, dt: real): WorldState {
    var movers := set e <- done | e in w.positions && e in w.velocities;
    w.(positions := map e <- w.positions ::
                      if e in movers then Advance(w.positions[e], w.velocities[e], dt) else w.positions[e],
       dirty := w.dirty + movers)
  }

  lemma MoveOneMore(w: WorldState, done: set<Entity>, e: Entity, dt: real)
    requires e !in done && e in w.positions && e in w.velocities
    ensures MovedFor(w, done, dt).SetPosition(e, Advance(w.positions[e], w.velocities[e], dt)) == MovedFor(w, done + {e}, dt)
  {
    var a, b := MovedFor(w, done, dt).SetPosition(e, Advance(w.positions[e], w.velocities[e], dt)), MovedFor(w, done + {e}, dt);
    assert a.positions == b.positions;
    assert a.dirty == b.dirty;
  }

  lemma MoveSkips(w: WorldState, done: set<Entity>, e: Entity, dt: real)
    requires !(e in w.positions && e in w.velocities)
    ensures MovedFor(w, done, dt) == MovedFor(w, done + {e}, dt)
  {
    var a, b := MovedFor(w, done, dt), MovedFor(w, done + {e}, dt);
    assert a.positions == b.positions;
    assert a.dirty == b.dirty;
  }

  method Movement(w: World, dt: real)
    modifies w
    ensures w.State() == old(w.State()).Moved(dt)
  {
    ghost var w0 := w.State();
    var rest := w.alive;
    assert MovedFor(w0, {}, dt) == w0 by {
      assert MovedFor(w0, {}, dt).positions == w0.positions;
      assert MovedFor(w0, {}, dt).dirty == w0.dirty;
    }
    while rest != {}
      invariant rest <= w0.alive
      invariant w.State() == MovedFor(w0, w0.alive - rest, dt)
    {
      var e :| e in rest;
      ghost var done := w0.alive - rest;
      if e in w.positions && e in w.velocities {
        MoveOneMore(w0, done, e, dt);
        w.SetPosition(e, Advance(w.positions[e], w.velocities[e], dt));
      } else {
        MoveSkips(w0, done, e, dt);
      }
      assert w0.alive - (rest - {e}) == done + {e};
      rest := rest - {e};
    }
    assert w0.alive - {} == w0.alive;
    assert MovedFor(w0, w0.alive, dt) == w0.Moved(dt);
  }

  ghost predicate Hurt(w: WorldState, e: Entity) {
    e in w.healths && w.healths[e].hp < w.healths[e].maxHP
  }

  ghost function HealedFor(w: WorldState, done: set<Entity>, amount: real): WorldState {
    var hurt := set e <- done | Hurt(w, e);
    w.(healths := map e <- w.healths :: if e in hurt then Heal(w.healths[e], amount) else w.healths[e],
       dirty := w.dirty + hurt)
  }

  lemma HealOneMore(w: WorldState, done: set<Entity>, e: Entity, amount: real)
    requires e !in done
    ensures Hurt(w, e) ==> HealedFor(w, done, amount).SetHealth(e, Heal(w.healths[e], amount)) == HealedFor(w, done + {e}, amount)
    ensures !Hurt(w, e) ==> HealedFor(w, done, amount) == HealedFor(w, done + {e}, amount)
  {
    var b := HealedFor(w, done + {e}, amount);
    if Hurt(w, e) {
      var a := HealedFor(w, done, amount).SetHealth(e, Heal(w.healths[e], amount));
      assert a.healths == b.healths && a.dirty == b.dirty;
    } else {
      var a := HealedFor(w, done, amount);
      assert a.healths == b.healths && a.dirty == b.dirty;
    }
  }

  method HealthRegen(w: World, rate: real, dt: real)
    modifies w
    ensures w.State() == old(w.State()).Regenerated(rate, dt)
  {
    if rate <= 0.0 {
      return;
    }
    ghost var w0 := w.State();
    var rest := w.alive;
    assert HealedFor(w0, {}, rate * dt) == w0 by {
      assert HealedFor(w0, {}, rate * dt).healths == w0.healths;
      assert HealedFor(w0, {}, rate * dt).dirty == w0.dirty;
    }
    while rest != {}
      invariant rest <= w0.alive
      invariant w.State() == HealedFor(w0, w0.alive - rest, rate * dt)
    {
      var e :| e in rest;
      ghost var done := w0.alive - rest;
      HealOneMore(w0, done, e, rate * dt);
      if e in w.healths && w.healths[e].hp < w.healths[e].maxHP {
        w.SetHealth(e, Heal(w.healths[e], rate * dt));
      }
      assert w0.alive - (rest - {e}) == done + {e};
      rest := rest - {e};
    }
    assert w0.alive - {} == w0.alive;
    AllHealed(w0, rate, dt);
  }

  lemma AllHealed(w: WorldState, rate: real, dt: real)
    requires rate > 0.0
    ensures HealedFor(w, w.alive, rate * dt) == w.Regenerated(rate, dt)
  {
    var a, b := HealedFor(w, w.alive, rate * dt), w.Regenerated(rate, dt);
    assert (set e <- w.alive | Hurt(w, e)) == (set e <- w.alive | e in w.healths && w.healths[e].hp < w.healths[e].maxHP);
    assert a.healths == b.healths;
  }
}
