/** What the calls on one cell do to its world and tell their callers: where a
    player's entity comes from, how it moves, and that it goes with them. */
module CellEffects {
  import opened Text
  import opened Ecs
  import opened CellState
  import opened CellInvariant
  import opened Persist
  import opened WorldLaws
  import Handoff
  import MergePlayers

  // ---------------------------------------------------------------- Join

  /** Whoever joins anew stands at the origin, still and at full health, as a new
      marked entity that the answer names; nobody else is touched. */
  lemma JoinSpawns(c: Cell, pid: string)
    requires Inv(c) && c.world.HasRoom() && pid != "" && pid !in c.playerByID && !c.drain
    ensures var (d, reply) := Join(c, pid); var e := reply.entity;
            reply.ok && reply.message == Spawned && e !in c.world.alive && e != 0 &&
            d == c.(world := d.world, playerByID := c.playerByID[pid := e], players := c.players + {e}) && d.world.alive == c.world.alive + {e} && OnlyChanges(c.world, d.world, e) &&
            e in d.world.positions && d.world.positions[e] == Position(0.0, 0.0, 0.0) &&
            e in d.world.velocities && d.world.velocities[e] == Velocity(0.0, 0.0, 0.0) &&
            e in d.world.healths && d.world.healths[e] == Health(100.0, 100.0) && e in d.world.dirty
    ensures NpcsOf(Join(c, pid).0.world, Join(c, pid).0.players) == NpcsOf(c.world, c.players)
  {
    JoinKeeps(c, pid);
    CreateIsFresh(c.world);
    hide Inv, NpcsOf;
    var d := Join(c, pid).0;
    NewPlayerIsNoNpc(c, d, Join(c, pid).1.entity);
  }

  lemma NewPlayerIsNoNpc(c: Cell, d: Cell, e: Entity)
    requires OnlyChanges(c.world, d.world, e) && e !in c.world.alive && d.players == c.players + {e}
    ensures NpcsOf(d.world, d.players) == NpcsOf(c.world, c.players)
  {
    forall x
      ensures (x in c.world.alive && x !in c.players) <==> (x in d.world.alive && x !in d.players)
      ensures x in c.world.alive && x !in c.players ==> MergePlayers.SameEntity(c.world, d.world, x)
    {
      assert x != e ==> Alike(c.world, d.world, x);
    }
    MergePlayers.SameNpcs(c.world, c.players, d.world, d.players);
  }

  /** The other answers to a Join: it changes nothing, and names the registered entity. */
  lemma JoinAnswers(c: Cell, pid: string)
    ensures var (d, reply) := Join(c, pid);
            (reply.message == AlreadyJoined <==> pid != "" && pid in c.playerByID) &&
            (reply.message == Spawned <==> pid != "" && pid !in c.playerByID && !c.drain) &&
            (reply.ok <==> reply.message == AlreadyJoined || reply.message == Spawned) &&
            (reply.message == AlreadyJoined ==> reply.entity == c.playerByID[pid]) && (reply.message != Spawned ==> d == c)
  {
  }

  // ---------------------------------------------------------------- Leave

  /** A registered player's entity goes with them, every component and mark of it;
      no other entity is touched, so nobody is left behind as an ownerless one. */
  lemma LeaveTakesEntity(c: Cell, pid: string)
    requires Inv(c) && pid in c.playerByID
    ensures var (d, reply) := Leave(c, pid); var e := c.playerByID[pid];
            reply.ok && reply.message == Left && d.playerByID == c.playerByID - {pid} && e !in d.players &&
            Gone(d.world, e) && OnlyChanges(c.world, d.world, e) && d.world.nextID == c.world.nextID
    ensures NpcsOf(Leave(c, pid).0.world, Leave(c, pid).0.players) == NpcsOf(c.world, c.players)
  {
    LeaveKeeps(c, pid);
    var d, e := Leave(c, pid).0, c.playerByID[pid];
    PlayerNamed(c, pid);
    LeftPlayers(c, pid);
    hide Inv, NpcsOf;
    PlayerGoes(c, d, e);
  }

  lemma PlayerNamed(c: Cell, pid: string)
    requires Inv(c) && pid in c.playerByID
    ensures pid != "" && c.playerByID[pid] in c.players
  {
  }

  lemma LeftPlayers(c: Cell, pid: string)
    requires Inv(c) && pid in c.playerByID
    ensures Leave(c, pid).0.players == c.players - {c.playerByID[pid]}
  {
  }

  lemma PlayerGoes(c: Cell, d: Cell, e: Entity)
    requires OnlyChanges(c.world, d.world, e) && Gone(d.world, e) && e in c.players && d.players == c.players - {e}
    ensures NpcsOf(d.world, d.players) == NpcsOf(c.world, c.players)
  {
    forall x
      ensures (x in c.world.alive && x !in c.players) <==> (x in d.world.alive && x !in d.players)
      ensures x in c.world.alive && x !in c.players ==> MergePlayers.SameEntity(c.world, d.world, x)
    {
      assert x != e ==> Alike(c.world, d.world, x);
    }
    MergePlayers.SameNpcs(c.world, c.players, d.world, d.players);
  }

  /** Whoever leaves is unfrozen and every record of theirs is forgotten, open or
      not; nobody else's is, and what was accepted stays known. */
  lemma LeaveForgets(c: Cell, pid: string)
    requires Inv(c) && pid != ""
    ensures var d := Leave(c, pid).0;
            d == c.(world := d.world, playerByID := c.playerByID - {pid}, players := d.players, frozen := c.frozen - {pid},
                    preparedByID := c.preparedByID - {pid}, preparedByTk := d.preparedByTk) &&
            (forall tok :: tok in d.preparedByTk <==> tok in c.preparedByTk && c.preparedByTk[tok].playerID != pid) &&
            forall tok <- d.preparedByTk :: d.preparedByTk[tok] == c.preparedByTk[tok]
  {
    assert pid in c.preparedByID ==> HasOpenRecord(c, pid, c.preparedByID[pid]);
  }

  /** Anybody else's Leave changes no world, and is answered affirmatively if it names somebody. */
  lemma LeaveOfStrangers(c: Cell, pid: string)
    requires pid !in c.playerByID
    ensures Leave(c, pid).0.world == c.world && Leave(c, pid).0.playerByID == c.playerByID && Leave(c, pid).0.players == c.players
    ensures Leave(c, pid).1 == if pid == "" then Reply(false, EmptyPlayerID, 0) else Reply(true, Noop, 0)
  {
  }

  /** Joining and leaving again, as a probe does, leaves the world as it was but for the id it used. */
  lemma JoinThenLeave(c: Cell, pid: string)
    requires Inv(c) && c.world.HasRoom() && pid != "" && pid !in c.playerByID && !c.drain
    requires Gone(c.world, c.world.nextID + 1)
    ensures Leave(Join(c, pid).0, pid).0.world == c.world.(nextID := c.world.nextID + 1)
    ensures Leave(Join(c, pid).0, pid).0.playerByID == c.playerByID
  {
    var e := c.world.Created();
    assert e == c.world.nextID + 1 && Gone(c.world, e);
    var d := Join(c, pid).0;
    SpawnThenDestroy(c.world, e, ORIGIN, STILL, FULL_HEALTH);
    assert Leave(d, pid).0.world == d.world.Destroy(e);
    assert Leave(d, pid).0.playerByID == c.playerByID;
  }

  lemma SpawnThenDestroy(w: WorldState, e: Entity, p: Position, v: Velocity, h: Health)
    requires e == w.Created() && Gone(w, e)
    ensures w.Create().SetPosition(e, p).SetVelocity(e, v).SetHealth(e, h).Destroy(e) == w.(nextID := e)
  {
    var r := w.Create().SetPosition(e, p).SetVelocity(e, v).SetHealth(e, h);
    assert r.alive - {e} == w.alive && r.dirty - {e} == w.dirty;
    assert r.positions - {e} == w.positions && r.velocities - {e} == w.velocities && r.healths - {e} == w.healths;
    assert r.colliders - {e} == w.colliders && r.zones - {e} == w.zones && r.sensors - {e} == w.sensors;
  }

  // ---------------------------------------------------------------- input and the steps after it

  /** An accepted input gives the player's entity exactly that velocity and changes nothing else; a refused one changes nothing. */
  lemma InputSteers(c: Cell, pid: string, v: Velocity)
    ensures var (d, reply) := ApplyInput(c, pid, v);
            (reply.ok <==> reply.message == Applied) && (!reply.ok ==> d == c) &&
            (reply.ok ==>
               (pid in c.playerByID && d == c.(world := d.world) && d.world == c.world.(velocities := d.world.velocities) &&
                OnlyChanges(c.world, d.world, c.playerByID[pid]) &&
                c.playerByID[pid] in d.world.velocities && d.world.velocities[c.playerByID[pid]] == v))
    ensures ApplyInput(c, pid, v).1.message ==
            if pid == "" then EmptyPlayerID else if pid !in c.playerByID then UnknownPlayer else if pid in c.frozen then PlayerFrozen
            else if c.playerByID[pid] !in c.world.positions then EntityGone else Applied
  {
  }

  function Steps(c: Cell, n: nat): Cell
    requires c.loop.tps > 0.0
    ensures n == 0 ==> Steps(c, n) == c
    ensures Steps(c, n).loop.tps == c.loop.tps
    decreases n
  {
    if n == 0 then c else Tick(Steps(c, n - 1))
  }

  /** One step: the tick count grows by one, the rate stays, every living mover
      travels by its velocity over one period, the hurt heal, and the tables stay. */
  lemma StepEffect(c: Cell, e: Entity)
    requires c.loop.tps > 0.0
    ensures var d, dt := Tick(c), 1.0 / c.loop.tps;
            d == c.(world := d.world, loop := d.loop) && d.loop == Loop(c.loop.tick + 1, c.loop.tps) &&
            (e in d.world.alive <==> e in c.world.alive) && SamePart(c.world.velocities, d.world.velocities, e) &&
            (e in d.world.positions <==> e in c.world.positions) &&
            (Mover(c.world, e) ==> Travelled(c.world.positions[e], c.world.velocities[e], dt, d.world.positions[e]) && e in d.world.dirty) &&
            (e in c.world.positions && !Mover(c.world, e) ==> d.world.positions[e] == c.world.positions[e]) &&
            (e in d.world.healths <==> e in c.world.healths) &&
            (HurtNow(c.world, e) ==>
               (d.world.healths[e].maxHP == c.world.healths[e].maxHP && e in d.world.dirty &&
                (d.world.healths[e].hp == c.world.healths[e].hp + 2.0 * dt ||
                 (d.world.healths[e].hp == c.world.healths[e].maxHP && c.world.healths[e].hp + 2.0 * dt > c.world.healths[e].maxHP)))) &&
            (e in c.world.healths && !HurtNow(c.world, e) ==> d.world.healths[e] == c.world.healths[e])
  {
    var dt := 1.0 / c.loop.tps;
    var w := c.world.Moved(dt);
    MovementTravels(c.world, dt, e);
    RegenerationHeals(w, REGEN_PER_SEC, dt, e);
    hide WorldState.Moved, WorldState.Regenerated;
  }

  /** The way covered in `n` periods of `dt` at speed `v`. */
  function Way(n: nat, v: real, dt: real): real {
    n as real * (v * dt)
  }

  lemma OneMorePeriod(n: nat, v: real, dt: real)
    ensures Way(n + 1, v, dt) == Way(n, v, dt) + v * dt
  {
  }

  /** `q` is `n` periods of `dt` further on from `p` at velocity `v`. */
  predicate WentFor(p: Position, v: Velocity, dt: real, n: nat, q: Position) {
    q.x == p.x + Way(n, v.vx, dt) && q.y == p.y + Way(n, v.vy, dt) && q.z == p.z + Way(n, v.vz, dt)
  }

  lemma WentNowhere(p: Position, v: Velocity, dt: real)
    ensures WentFor(p, v, dt, 0, p)
  {
    assert Way(0, v.vx, dt) == Way(0, v.vy, dt) == Way(0, v.vz, dt) == 0.0;
  }

  lemma WentFurther(p: Position, v: Velocity, dt: real, n: nat, q: Position, r: Position)
    requires WentFor(p, v, dt, n, q) && Travelled(q, v, dt, r)
    ensures WentFor(p, v, dt, n + 1, r)
  {
    hide Way;
    OneMorePeriod(n, v.vx, dt);
    OneMorePeriod(n, v.vy, dt);
    OneMorePeriod(n, v.vz, dt);
  }

  /** Over any number of steps a mover goes that many periods' worth of its velocity, and keeps it. */
  lemma {:induction false} StepsMove(b: Cell, e: Entity, v: Velocity, n: nat)
    requires b.loop.tps > 0.0 && Mover(b.world, e) && b.world.velocities[e] == v
    ensures var d := Steps(b, n);
            d.playerByID == b.playerByID && Mover(d.world, e) && d.world.velocities[e] == v &&
            WentFor(b.world.positions[e], v, 1.0 / b.loop.tps, n, d.world.positions[e])
    decreases n
  {
    hide Tick, WentFor;
    if n == 0 {
      WentNowhere(b.world.positions[e], v, 1.0 / b.loop.tps);
    } else {
      StepsMove(b, e, v, n - 1);
      OneStepOn(Steps(b, n - 1), e, v, n - 1, b.world.positions[e]);
    }
  }

  /** So after an accepted input and any number of steps the player has gone
      exactly that many periods' worth of the input's velocity. */
  lemma InputMovesPlayer(c: Cell, pid: string, v: Velocity, n: nat)
    requires Inv(c) && c.loop.tps > 0.0 && ApplyInput(c, pid, v).1.ok
    ensures pid in c.playerByID && c.playerByID[pid] in c.world.positions && ApplyInput(c, pid, v).0.loop == c.loop
    ensures var e, d := c.playerByID[pid], Steps(ApplyInput(c, pid, v).0, n);
            d.playerByID == c.playerByID && Mover(d.world, e) && d.world.velocities[e] == v &&
            WentFor(c.world.positions[e], v, 1.0 / c.loop.tps, n, d.world.positions[e])
  {
    StartsMoving(c, pid, v);
    hide *;
    StepsMove(ApplyInput(c, pid, v).0, c.playerByID[pid], v, n);
  }

  lemma StartsMoving(c: Cell, pid: string, v: Velocity)
    requires Inv(c) && ApplyInput(c, pid, v).1.ok
    ensures pid in c.playerByID && c.playerByID[pid] in c.world.positions
    ensures var e, d := c.playerByID[pid], ApplyInput(c, pid, v).0;
            d.playerByID == c.playerByID && d.loop == c.loop && Mover(d.world, e) && d.world.velocities[e] == v &&
            d.world.positions == c.world.positions
  {
    InputSteers(c, pid, v);
    Handoff.RegisteredIsPositioned(c, pid);
    hide ApplyInput, Inv;
  }

  lemma OneStepOn(b: Cell, e: Entity, v: Velocity, n: nat, from: Position)
    requires b.loop.tps > 0.0 && Mover(b.world, e) && b.world.velocities[e] == v
    requires WentFor(from, v, 1.0 / b.loop.tps, n, b.world.positions[e])
    ensures var d := Tick(b);
            d.playerByID == b.playerByID && Mover(d.world, e) && d.world.velocities[e] == v &&
            WentFor(from, v, 1.0 / b.loop.tps, n + 1, d.world.positions[e])
  {
    StepEffect(b, e);
    hide Tick, WentFor, Travelled;
    WentFurther(from, v, 1.0 / b.loop.tps, n, b.world.positions[e], Tick(b).world.positions[e]);
  }

  // ---------------------------------------------------------------- the three handoff calls

  /** Five seconds after it was prepared a handoff still stands, a nanosecond later it does not. */
  lemma PruneAfterFiveSeconds(c: Cell, pid: string, now: nat)
    requires Inv(c) && pid in c.preparedByID
    ensures c.preparedByID[pid] in c.preparedByTk
    ensures pid in Prune(c, now).preparedByID <==> now - c.preparedByTk[c.preparedByID[pid]].createdAt <= 5_000_000_000
  {
    assert HasOpenRecord(c, pid, c.preparedByID[pid]);
    assert RecordLinked(c, c.preparedByID[pid]);
  }

  /** What a fresh Prepare carries: the player as they are, with 100 of 100 points
      if they have no positive maximum, and where it comes from. */
  lemma PayloadSays(c: Cell, pid: string, target: string, tok: string, now: nat)
    requires Inv(c) && now > 0 && pid in c.playerByID && pid !in c.frozen && tok !in c.preparedByTk && tok != "" && target != ""
    ensures var (d, reply) := Prepare(c, pid, target, tok, now); var e := c.playerByID[pid];
            reply.ok && reply.message == PreparedNow && reply.payload.Some? && Tells(reply.payload.value, c, pid, e, target, tok)
    ensures var (d, _) := Prepare(c, pid, target, tok, now); var e := c.playerByID[pid];
            OnlyChanges(c.world, d.world, e) && d.world == c.world.(velocities := d.world.velocities) &&
            e in d.world.velocities && d.world.velocities[e] == Velocity(0.0, 0.0, 0.0) &&
            NpcsOf(d.world, d.players) == NpcsOf(c.world, c.players)
  {
    MergePlayers.PrepareKeepsNpcs(c, pid, target, tok, now);
    Handoff.RegisteredIsPositioned(c, pid);
    PlayerNamed(c, pid);
    FreshPrepare(c, pid, target, tok, now);
    hide Inv, Prepare, NpcsOf, PayloadFor;
    PayloadIs(c, pid, c.playerByID[pid], target, tok);
  }

  /** The payload tells the entity as it is in the world's maps. */
  predicate Tells(p: Payload, c: Cell, pid: string, e: Entity, target: string, tok: string) {
    p.playerID == pid && p.token == tok && p.source == c.id && p.target == target && p.sourceEntity == e && p.tick == c.loop.tick &&
    e in c.world.positions && p.position == c.world.positions[e] &&
    (e in c.world.velocities ==> p.velocity == c.world.velocities[e]) && (e !in c.world.velocities ==> p.velocity == Velocity(0.0, 0.0, 0.0)) &&
    (if e in c.world.healths && c.world.healths[e].maxHP > 0.0 then p.hpCur == c.world.healths[e].hp && p.hpMax == c.world.healths[e].maxHP
     else p.hpCur == 100.0 && p.hpMax == 100.0)
  }

  lemma PayloadIs(c: Cell, pid: string, e: Entity, target: string, tok: string)
    requires e in c.world.positions
    ensures Tells(PayloadFor(c, pid, e, target, tok), c, pid, e, target, tok)
  {
  }

  lemma FreshPrepare(c: Cell, pid: string, target: string, tok: string, now: nat)
    requires Inv(c) && now > 0 && pid in c.playerByID && pid !in c.frozen && tok !in c.preparedByTk && tok != "" && target != "" && pid != ""
    requires c.playerByID[pid] in c.world.positions
    ensures var (d, reply) := Prepare(c, pid, target, tok, now);
            reply == PrepareReply(true, PreparedNow, Some(PayloadFor(c, pid, c.playerByID[pid], target, tok))) &&
            d.world == c.world.SetVelocity(c.playerByID[pid], STILL)
  {
    Handoff.PrepareFirst(c, pid, target, tok, now);
    PruneKeeps(c, now);
    FreshCases(Prune(c, now), pid, target, tok, now);
    hide Prune, PrepareFresh, PayloadFor, Inv;
    Handoff.PrepareFirst(c, pid, target, tok, now);
  }

  /** A fresh Prepare freezes the player under the token and keeps what it
      answered; apart from pruning it touches no other table. */
  lemma PrepareOpens(c: Cell, pid: string, target: string, tok: string, now: nat)
    requires Inv(c) && now > 0 && pid in c.playerByID && pid !in c.frozen && tok !in c.preparedByTk && tok != "" && target != ""
    ensures var (d, reply) := Prepare(c, pid, target, tok, now); var b := Prune(c, now);
            reply.payload.Some? && d == b.(world := d.world, frozen := b.frozen + {pid}, preparedByID := b.preparedByID[pid := tok],
              preparedByTk := b.preparedByTk[tok := Prepared(pid, tok, c.playerByID[pid], false, now, reply.payload.value)])
  {
    PlayerNamed(c, pid);
    Handoff.RegisteredIsPositioned(c, pid);
    PruneKeeps(c, now);
    hide PayloadFor;
  }

  /** The answers to a Prepare, told from the tables after pruning. */
  lemma PrepareAnswers(c: Cell, pid: string, target: string, tok: string, now: nat)
    requires Inv(c) && now > 0
    ensures Prepare(c, pid, target, tok, now).1.message ==
            if pid == "" || target == "" || tok == "" then FieldsRequired
            else if tok in Prune(c, now).preparedByTk then AlreadyPrepared
            else if pid in Prune(c, now).frozen then InProgress
            else if pid !in c.playerByID then UnknownPlayer else PreparedNow
  {
    PruneKeeps(c, now);
    if tok !in Prune(c, now).preparedByTk {
      FreshCases(Prune(c, now), pid, target, tok, now);
    }
    hide Prune, PrepareFresh, PayloadFor, Inv;
  }

  /** What a first Accept leaves: the player's own entity or a new one, at the
      payload's position and velocity, alive and well: a health that is not
      positive becomes the maximum, a maximum that is not positive becomes 100. */
  lemma AcceptArrives(c: Cell, p: Payload)
    requires Inv(c) && (c.world.HasRoom() || p.playerID in c.playerByID)
    requires p.playerID != "" && p.token != "" && p.token !in c.acceptedByTk
    ensures var (d, reply) := Accept(c, p); var e := reply.entity;
            reply.ok && reply.message == Message.Accepted && OnlyChanges(c.world, d.world, e) && e in d.world.dirty && e in d.world.alive &&
            (if p.playerID in c.playerByID then e == c.playerByID[p.playerID] && d.world.nextID == c.world.nextID else e !in c.world.alive) &&
            e in d.world.positions && d.world.positions[e] == p.position && e in d.world.velocities && d.world.velocities[e] == p.velocity &&
            e in d.world.healths && var h := d.world.healths[e];
            h.maxHP == (if p.hpMax > 0.0 then p.hpMax else 100.0) && h.hp == (if p.hpCur > 0.0 then p.hpCur else h.maxHP)
  {
    CreateIsFresh(c.world);
    var known := p.playerID in c.playerByID;
    var e := if known then c.playerByID[p.playerID] else c.world.Created();
    if known {
      Handoff.RegisteredIsPositioned(c, p.playerID);
    }
    assert Accept(c, p).1.entity == e && Accept(c, p).0.world == Arrive(if known then c.world else c.world.Create(), e, p);
    hide *;
    if known {
      ArrivalLands(c.world, e, p);
    } else {
      ArrivalSpawns(c.world, p);
    }
  }

  lemma ArrivalLands(w: WorldState, e: Entity, p: Payload)
    ensures var r := Arrive(w, e, p);
            OnlyChanges(w, r, e) && e in r.dirty && r.alive == w.alive && r.nextID == w.nextID &&
            e in r.positions && r.positions[e] == p.position && e in r.velocities && r.velocities[e] == p.velocity && e in r.healths &&
            r.healths[e].maxHP == (if p.hpMax > 0.0 then p.hpMax else 100.0) &&
            r.healths[e].hp == (if p.hpCur > 0.0 then p.hpCur else r.healths[e].maxHP)
  {
  }

  lemma ArrivalSpawns(w: WorldState, p: Payload)
    ensures var e := w.Created();
            w.Create().alive == w.alive + {e} && OnlyChanges(w, Arrive(w.Create(), e, p), e)
    ensures var e := w.Created(); var r := Arrive(w.Create(), e, p);
            e in r.dirty && r.alive == w.alive + {e} &&
            e in r.positions && r.positions[e] == p.position && e in r.velocities && r.velocities[e] == p.velocity && e in r.healths &&
            r.healths[e].maxHP == (if p.hpMax > 0.0 then p.hpMax else 100.0) &&
            r.healths[e].hp == (if p.hpCur > 0.0 then p.hpCur else r.healths[e].maxHP)
  {
  }

  /** A first Accept registers the player and remembers the token, and touches no other table. */
  lemma AcceptRegisters(c: Cell, p: Payload)
    requires p.playerID != "" && p.token != "" && p.token !in c.acceptedByTk
    ensures var (d, reply) := Accept(c, p); var e := reply.entity;
            d == c.(world := d.world, playerByID := c.playerByID[p.playerID := e], players := c.players + {e}, acceptedByTk := c.acceptedByTk[p.token := e])
  {
  }

  lemma AcceptAnswers(c: Cell, p: Payload)
    ensures var (d, reply) := Accept(c, p);
            reply.message == (if p.playerID == "" || p.token == "" then FieldsRequired
                              else if p.token in c.acceptedByTk then AlreadyAccepted else Message.Accepted) &&
            (reply.ok <==> reply.message != FieldsRequired) && (reply.message != Message.Accepted ==> d == c) &&
            (reply.message == AlreadyAccepted ==> reply.entity == c.acceptedByTk[p.token])
  {
  }

  /** Finalizing takes the entity away as completely as leaving does, and leaves all others. */
  lemma FinalizeTakesEntity(c: Cell, pid: string, tok: string)
    requires Inv(c) && pid != "" && tok != "" && HasOpenRecord(c, pid, tok)
    ensures pid in c.playerByID
    ensures var (d, reply) := Finalize(c, pid, tok); var e := c.playerByID[pid];
            reply.ok && reply.message == Finalized && Gone(d.world, e) && OnlyChanges(c.world, d.world, e) && d.world.nextID == c.world.nextID &&
            NpcsOf(d.world, d.players) == NpcsOf(c.world, c.players)
  {
    MergePlayers.FinalizeKeepsNpcs(c, pid, tok);
    Handoff.FinalizeOpen(c, pid, tok);
    OpenFinalizes(c, pid, tok);
    hide *;
    DestroyTakesExactly(c.world, c.playerByID[pid]);
  }

  /** Finalizing closes the record, unfreezes and unregisters the player, and touches no other record. */
  lemma FinalizeCloses(c: Cell, pid: string, tok: string)
    requires Inv(c) && pid != "" && tok != "" && HasOpenRecord(c, pid, tok)
    ensures var d := Finalize(c, pid, tok).0;
            d == c.(world := d.world, playerByID := c.playerByID - {pid}, players := d.players, frozen := c.frozen - {pid},
                    preparedByID := c.preparedByID - {pid}, preparedByTk := d.preparedByTk) &&
            d.preparedByTk.Keys == c.preparedByTk.Keys && d.preparedByTk[tok] == c.preparedByTk[tok].(finalized := true) &&
            forall t <- c.preparedByTk :: t != tok ==> d.preparedByTk[t] == c.preparedByTk[t]
  {
  }

  lemma OpenFinalizes(c: Cell, pid: string, tok: string)
    requires pid != "" && tok != "" && HasOpenRecord(c, pid, tok)
    ensures Finalize(c, pid, tok).1.message == Finalized
  {
  }

  lemma FinalizeAnswers(c: Cell, pid: string, tok: string)
    ensures var (d, reply) := Finalize(c, pid, tok);
            reply.message == (if pid == "" || tok == "" then FieldsRequired else if tok !in c.preparedByTk then UnknownToken
                              else if c.preparedByTk[tok].playerID != pid then TokenMismatch
                              else if c.preparedByTk[tok].finalized then AlreadyFinalized else Finalized) &&
            (reply.ok <==> reply.message == AlreadyFinalized || reply.message == Finalized) &&
            (reply.message != Finalized ==> d.world == c.world && d.playerByID == c.playerByID)
  {
  }
}
