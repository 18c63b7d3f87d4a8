/** The cell server object: the handlers of one cell, each proved to have exactly
    the effect and the answer that `CellState` gives it. */
module CellServer {
  import opened Text
  import opened Ecs
  import opened CellState
  import Calls = CellState
  import opened CellInvariant
  import Persist
  import Systems
  import WorldLaws

  class Server {
    const cellID: string
    const world: World
    var loop: Loop
    var players: set<Entity>
    var playerByID: map<string, Entity>
    var frozenByID: set<string>
    var preparedByID: map<string, string>
    var preparedByTk: map<string, Prepared>
    var acceptedByTk: map<string, Entity>
    var splitDrain: bool

    function State(): Cell
      reads this, world
    {
      Cell(cellID, world.State(), loop, players, playerByID, frozenByID, preparedByID, preparedByTk, acceptedByTk, splitDrain)
    }

    constructor (id: string)
      ensures State() == EmptyCell(id) && Inv(State()) && fresh(world)
    {
      cellID := id;
      world := new World();
      loop := Loop(0, 25.0);
      players, playerByID, frozenByID := {}, map[], {};
      preparedByID, preparedByTk, acceptedByTk := map[], map[], map[];
      splitDrain := false;
      new;
      EmptyCellInv(id);
    }

    method Join(playerID: string) returns (reply: Reply)
      modifies this, world
      ensures (State(), reply) == Calls.Join(old(State()), TrimSpace(playerID))
    {
      var pid := TrimSpace(playerID);
      if pid == "" {
        return Reply(false, EmptyPlayerID, 0);
      }
      if pid in playerByID {
        return Reply(true, AlreadyJoined, playerByID[pid]);
      }
      if splitDrain {
        return Reply(false, Draining, 0);
      }
      var e := world.CreateEntity();
      world.SetPosition(e, ORIGIN);
      world.SetVelocity(e, STILL);
      world.SetHealth(e, FULL_HEALTH);
      playerByID := playerByID[pid := e];
      players := players + {e};
      reply := Reply(true, Spawned, e);
    }

    /** Drops every record of the player, whatever its state. */
    method DropRecords(pid: string)
      modifies this`preparedByTk
      ensures preparedByTk == WithoutRecordsOf(old(preparedByTk), pid)
    {
      var rest := preparedByTk.Keys;
      while rest != {}
        invariant rest <= old(preparedByTk).Keys
        invariant forall tok :: tok in preparedByTk <==>
                    tok in old(preparedByTk) && (tok in rest || old(preparedByTk)[tok].playerID != pid)
        invariant forall tok <- preparedByTk :: preparedByTk[tok] == old(preparedByTk)[tok]
      {
        var tok :| tok in rest;
        rest := rest - {tok};
        if preparedByTk[tok].playerID == pid {
          preparedByTk := preparedByTk - {tok};
        }
      }
    }

    /** Unfreezes the player and drops their active token and all their records. */
    method ForgetHandoffs(pid: string)
      modifies this`frozenByID, this`preparedByID, this`preparedByTk
      ensures frozenByID == old(frozenByID) - {pid} && preparedByID == old(preparedByID) - {pid}
      ensures var active := if pid in old(preparedByID) then {old(preparedByID)[pid]} else {};
              preparedByTk == WithoutRecordsOf(old(preparedByTk) - active, pid)
    {
      frozenByID := frozenByID - {pid};
      if pid in preparedByID {
        var tok := preparedByID[pid];
        preparedByID := preparedByID - {pid};
        preparedByTk := preparedByTk - {tok};
      }
      DropRecords(pid);
    }

    method Leave(playerID: string) returns (reply: Reply)
      modifies this, world
      ensures (State(), reply) == Calls.Leave(old(State()), TrimSpace(playerID))
      ensures var pid := TrimSpace(playerID);
              if pid != "" && pid in old(playerByID)
              then WorldLaws.Gone(world.State(), old(playerByID)[pid]) && WorldLaws.OnlyChanges(old(world.State()), world.State(), old(playerByID)[pid])
              else world.State() == old(world.State())
    {
      hide TrimSpace, WithoutRecordsOf, WorldState.Destroy, WorldLaws.Gone, WorldLaws.OnlyChanges;
      var pid := TrimSpace(playerID);
      if pid == "" {
        return Reply(false, EmptyPlayerID, 0);
      }
      var known := pid in playerByID;
      var e := if known then playerByID[pid] else 0;
      if known {
        playerByID := playerByID - {pid};
        players := players - {e};
      }
      ForgetHandoffs(pid);
      if !known {
        return Reply(true, Noop, 0);
      }
      WorldLaws.DestroyTakesExactly(world.State(), e);
      world.DestroyEntity(e);
      reply := Reply(true, Left, 0);
    }

    method ApplyInput(playerID: string, velocity: Velocity) returns (reply: Reply)
      modifies world
      ensures (State(), reply) == Calls.ApplyInput(old(State()), TrimSpace(playerID), velocity)
      ensures !reply.ok ==> State() == old(State())
      ensures reply.ok ==>
                (TrimSpace(playerID) in playerByID && var e := playerByID[TrimSpace(playerID)];
                 e in world.velocities && world.velocities[e] == velocity && WorldLaws.OnlyChanges(old(world.State()), world.State(), e))
    {
      var pid := TrimSpace(playerID);
      if pid == "" {
        return Reply(false, EmptyPlayerID, 0);
      }
      if pid !in playerByID {
        return Reply(false, UnknownPlayer, 0);
      }
      if pid in frozenByID {
        return Reply(false, PlayerFrozen, 0);
      }
      var e := playerByID[pid];
      if e !in world.positions {
        return Reply(false, EntityGone, 0);
      }
      world.SetVelocity(e, velocity);
      reply := Reply(true, Applied, 0);
    }

    /** Visits the active tokens in any order: the outcome does not depend on it,
        because deleting a stale record leaves every player that shares it stale. */
    method PruneStalePrepared(now: nat)
      modifies this`preparedByID, this`frozenByID, this`preparedByTk
      ensures State() == Prune(old(State()), now)
    {
      ghost var c := State();
      var rest := preparedByID.Keys;
      ghost var gone: set<string> := {};
      PrunedNone(c);
      while rest != {}
        invariant rest <= c.preparedByID.Keys
        invariant gone == StalePlayers(c, now) - rest
        invariant State() == PrunedOf(c, gone)
      {
        var p :| p in rest;
        rest := rest - {p};
        var tok := preparedByID[p];
        StalenessIsStable(c, gone, p, now);
        if tok !in preparedByTk || preparedByTk[tok].finalized || preparedByTk[tok].createdAt == 0 ||
           now - preparedByTk[tok].createdAt > STALE_AFTER {
          PruneOneMore(c, gone, p);
          preparedByID := preparedByID - {p};
          frozenByID := frozenByID - {p};
          gone := gone + {p};
          if tok != "" {
            preparedByTk := preparedByTk - {tok};
          }
        }
      }
      assert gone == StalePlayers(c, now);
    }

    /** The cell after pruning the players in `gone`. */
    static ghost function PrunedOf(c: Cell, gone: set<string>): Cell
      requires gone <= c.preparedByID.Keys
    {
      c.(preparedByID := c.preparedByID - gone,
         frozen := c.frozen - gone,
         preparedByTk := c.preparedByTk - (set p <- gone | c.preparedByID[p] != "" :: c.preparedByID[p]))
    }

    static lemma PrunedNone(c: Cell)
      ensures PrunedOf(c, {}) == c
    {
      assert c.preparedByID - {} == c.preparedByID;
      assert PrunedOf(c, {}).frozen == c.frozen;
      assert PrunedOf(c, {}).preparedByTk == c.preparedByTk;
    }

    static lemma PruneOneMore(c: Cell, gone: set<string>, p: string)
      requires gone <= c.preparedByID.Keys && p in c.preparedByID && p !in gone
      ensures var d := PrunedOf(c, gone);
              PrunedOf(c, gone + {p}) ==
              d.(preparedByID := d.preparedByID - {p}, frozen := d.frozen - {p},
                 preparedByTk := if c.preparedByID[p] != "" then d.preparedByTk - {c.preparedByID[p]} else d.preparedByTk)
    {
      var d, e := PrunedOf(c, gone), PrunedOf(c, gone + {p});
      assert e.preparedByID == d.preparedByID - {p};
      assert e.frozen == d.frozen - {p};
      assert e.preparedByTk == if c.preparedByID[p] != "" then d.preparedByTk - {c.preparedByID[p]} else d.preparedByTk;
    }

    static lemma StalenessIsStable(c: Cell, gone: set<string>, p: string, now: nat)
      requires gone <= StalePlayers(c, now) && p in c.preparedByID
      ensures Abandoned(c, c.preparedByID[p], now) <==> Abandoned(PrunedOf(c, gone), c.preparedByID[p], now)
    {
    }

    method PreparePlayerHandoff(playerID: string, targetCellID: string, handoffToken: string, now: nat)
      returns (reply: PrepareReply)
      modifies this, world
      ensures (State(), reply) ==
              Calls.Prepare(old(State()), TrimSpace(playerID), TrimSpace(targetCellID), TrimSpace(handoffToken), now)
    {
      var pid, target, tok := TrimSpace(playerID), TrimSpace(targetCellID), TrimSpace(handoffToken);
      if pid == "" || target == "" || tok == "" {
        return PrepareReply(false, FieldsRequired, None);
      }
      PruneStalePrepared(now);
      if tok in preparedByTk {
        return PrepareReply(true, AlreadyPrepared, Some(preparedByTk[tok].payload));
      }
      reply := PrepareUnknownToken(pid, target, tok, now);
    }

    /** The part of Prepare after pruning, for a token without a record. */
    method PrepareUnknownToken(pid: string, target: string, tok: string, now: nat) returns (reply: PrepareReply)
      requires tok !in preparedByTk
      modifies this, world
      ensures (State(), reply) == PrepareFresh(old(State()), pid, target, tok, now)
    {
      if pid in preparedByID && preparedByID[pid] != tok {
        var other := preparedByID[pid];
        if other !in preparedByTk || preparedByTk[other].createdAt == 0 ||
           now - preparedByTk[other].createdAt > STALE_AFTER {
          preparedByID := preparedByID - {pid};
          frozenByID := frozenByID - {pid};
          preparedByTk := preparedByTk - {other};
        } else {
          return PrepareReply(false, InProgress, None);
        }
      }
      if pid !in playerByID {
        return PrepareReply(false, UnknownPlayer, None);
      }
      if playerByID[pid] !in world.positions {
        preparedByID := preparedByID - {pid};
        frozenByID := frozenByID - {pid};
        return PrepareReply(false, EntityGone, None);
      }
      reply := OpenHandoff(pid, target, tok, now);
    }

    /** Freezes the player where they are and records the handoff. */
    method OpenHandoff(pid: string, target: string, tok: string, now: nat) returns (reply: PrepareReply)
      requires pid in playerByID && playerByID[pid] in world.positions
      modifies this`preparedByID, this`frozenByID, this`preparedByTk, world
      ensures State() == Froze(old(State()), pid, target, tok, now)
      ensures reply == PrepareReply(true, PreparedNow, Some(PayloadFor(old(State()), pid, playerByID[pid], target, tok)))
    {
      var e := playerByID[pid];
      preparedByID := preparedByID[pid := tok];
      frozenByID := frozenByID + {pid};
      // the momentum travels in the payload; the copy left behind stands still
      var velocity := if e in world.velocities then world.velocities[e] else STILL;
      var position := world.positions[e];
      world.SetVelocity(e, STILL);
      var hp := if e in world.healths && world.healths[e].maxHP > 0.0 then world.healths[e] else FULL_HEALTH;
      var payload := Payload(pid, position, velocity, hp.hp, hp.maxHP, loop.tick, tok, cellID, target, e);
      preparedByTk := preparedByTk[tok := Prepared(pid, tok, e, false, now, payload)];
      reply := PrepareReply(true, PreparedNow, Some(payload));
    }

    method PlaceArrival(e: Entity, payload: Payload)
      modifies world
      ensures world.State() == Arrive(old(world.State()), e, payload)
    {
      var maxHP := payload.hpMax;
      if maxHP <= 0.0 {
        maxHP := 100.0;
      }
      var curHP := payload.hpCur;
      if curHP <= 0.0 {
        curHP := maxHP;
      }
      world.SetPosition(e, payload.position);
      world.SetVelocity(e, payload.velocity);
      world.SetHealth(e, Health(curHP, maxHP));
    }

    static lemma ArrivesTrimmed(w: WorldState, e: Entity, p: Payload, pid: string, tok: string)
      ensures Arrive(w, e, p.(playerID := pid, token := tok)) == Arrive(w, e, p)
    {
    }

    method AcceptPlayerHandoff(payload: Payload) returns (reply: Reply)
      modifies this, world
      ensures (State(), reply) ==
              Calls.Accept(old(State()), payload.(playerID := TrimSpace(payload.playerID), token := TrimSpace(payload.token)))
    {
      hide TrimSpace, Arrive;
      var pid, tok := TrimSpace(payload.playerID), TrimSpace(payload.token);
      if pid == "" || tok == "" {
        return Reply(false, FieldsRequired, 0);
      }
      if tok in acceptedByTk {
        return Reply(true, AlreadyAccepted, acceptedByTk[tok]);
      }
      var e: Entity;
      if pid in playerByID {
        e := playerByID[pid];
      } else {
        e := world.CreateEntity();
      }
      ArrivesTrimmed(world.State(), e, payload, pid, tok);
      PlaceArrival(e, payload);
      playerByID := playerByID[pid := e];
      players := players + {e};
      acceptedByTk := acceptedByTk[tok := e];
      reply := Reply(true, Accepted, e);
    }

    method FinalizePlayerHandoff(playerID: string, handoffToken: string) returns (reply: Reply)
      modifies this, world
      ensures (State(), reply) == Calls.Finalize(old(State()), TrimSpace(playerID), TrimSpace(handoffToken))
    {
      var pid, tok := TrimSpace(playerID), TrimSpace(handoffToken);
      if pid == "" || tok == "" {
        return Reply(false, FieldsRequired, 0);
      }
      if tok !in preparedByTk {
        if pid in preparedByID && preparedByID[pid] == tok {
          preparedByID := preparedByID - {pid};
          frozenByID := frozenByID - {pid};
        }
        return Reply(false, UnknownToken, 0);
      }
      var prepared := preparedByTk[tok];
      if prepared.playerID != pid {
        return Reply(false, TokenMismatch, 0);
      }
      if prepared.finalized {
        return Reply(true, AlreadyFinalized, 0);
      }
      CloseHandoff(pid, tok);
      reply := Reply(true, Finalized, 0);
    }

    method CloseHandoff(pid: string, tok: string)
      requires tok != "" && pid != "" && tok in preparedByTk
      requires preparedByTk[tok].playerID == pid && !preparedByTk[tok].finalized
      modifies this, world
      ensures State() == Calls.Finalize(old(State()), pid, tok).0
    {
      hide WorldState.Destroy;
      var prepared := preparedByTk[tok];
      preparedByTk := preparedByTk[tok := prepared.(finalized := true)];
      preparedByID := preparedByID - {pid};
      frozenByID := frozenByID - {pid};
      RemovePlayer(pid, prepared.entity);
    }

    /** Removes whoever is registered as the player now, else the prepared entity. */
    method RemovePlayer(pid: string, prepared: Entity)
      modifies this`playerByID, this`players, world
      ensures var here := pid in old(playerByID);
              var e := if here then old(playerByID)[pid] else prepared;
              playerByID == old(playerByID) - {pid} &&
              players == (if here then old(players) - {e} else old(players)) &&
              world.State() == (if here || e != 0 then old(world.State()).Destroy(e) else old(world.State()))
    {
      var e := prepared;
      var hasEntity := false;
      if pid in playerByID {
        e := playerByID[pid];
        hasEntity := true;
        playerByID := playerByID - {pid};
        players := players - {e};
      }
      if hasEntity || e != 0 {
        world.DestroyEntity(e);
      }
    }

    /** One step of the loop: movement, regeneration, tick count. */
    method Step()
      requires loop.tps > 0.0
      modifies this`loop, world
      ensures State() == Tick(old(State()))
    {
      var dt := 1.0 / loop.tps;
      Systems.Movement(world, dt);
      Systems.HealthRegen(world, REGEN_PER_SEC, dt);
      loop := loop.(tick := loop.tick + 1);
    }

    /** Export skips the players' entities. */
    method ExportNpcs() returns (p: Persist.CellPersist)
      ensures 0 !in world.alive ==> Persist.IsExport(State(), p)
      ensures Persist.Meaning(p.entities) == Persist.NpcsOf(world.State(), players + {0})
    {
      p := Persist.Encode(world.State(), loop, players);
    }

    method ImportNpcs(p: Persist.CellPersist) returns (ok: bool)
      modifies this`loop, world
      ensures (State(), ok) == Persist.Import(old(State()), p)
    {
      if |playerByID| > 0 {
        return false;
      }
      ok, loop := Persist.Decode(world, loop, p);
    }

    /** The migration candidates that are players. */
    method MigrationPlayers() returns (ids: seq<string>)
      requires Inv(State())
      ensures forall p :: p in ids <==> p in playerByID
      ensures |ids| == |playerByID|
    {
      ids := MigrationPlayersOf(State());
    }
  }

  // ---------------------------------------------------------------- migration candidates

  ghost function PlayersOutside(m: map<string, Entity>, rest: set<Entity>): set<string> {
    set p <- m | m[p] !in rest
  }

  /** A walk over the living, positioned entities, with the owner of each player's
      entity looked up: in a consistent cell, each player once. */
  method MigrationPlayersOf(c: Cell) returns (ids: seq<string>)
    ensures forall p <- ids :: p == "" || p in c.playerByID
    ensures Inv(c) ==> forall p :: p in ids <==> p in c.playerByID
    ensures Inv(c) ==> |ids| == |c.playerByID| && forall i, j :: 0 <= i < j < |ids| ==> ids[i] != ids[j]
  {
    hide *;
    ids := [];
    var rest := c.world.alive;
    NobodyOutside(c);
    while rest != {}
      invariant rest <= c.world.alive
      invariant forall p <- ids :: p == "" || p in c.playerByID
      invariant Inv(c) ==> ListsOutside(ids, c, rest)
    {
      var e :| e in rest;
      if e in c.world.positions && e in c.players {
        var pid := PlayerIDByEntity(c, e);
        OwnerIsPlayer(c, e, pid);
        OneOutsideMore(ids, c, rest, e, pid);
        ids := ids + [pid];
      } else {
        NoneOutsideMore(ids, c, rest, e);
      }
      rest := rest - {e};
    }
    AllOutside(ids, c);
  }

  /** The players whose entities the walk has passed, each once. */
  ghost predicate ListsOutside(ids: seq<string>, c: Cell, rest: set<Entity>) {
    var done := PlayersOutside(c.playerByID, rest);
    (forall p :: p in ids <==> p in done) && |ids| == |done| && forall i, j :: 0 <= i < j < |ids| ==> ids[i] != ids[j]
  }

  lemma NobodyOutside(c: Cell)
    ensures Inv(c) ==> ListsOutside([], c, c.world.alive)
  {
    if Inv(c) {
      assert PlayersOutside(c.playerByID, c.world.alive) == {};
    }
  }

  lemma AllOutside(ids: seq<string>, c: Cell)
    ensures ListsOutside(ids, c, {}) ==>
              (forall p :: p in ids <==> p in c.playerByID) && |ids| == |c.playerByID| &&
              forall i, j :: 0 <= i < j < |ids| ==> ids[i] != ids[j]
  {
    assert PlayersOutside(c.playerByID, {}) == c.playerByID.Keys;
  }

  lemma OneOutsideMore(ids: seq<string>, c: Cell, rest: set<Entity>, e: Entity, pid: string)
    requires e in rest && e in c.players && IsOwner(c, e, pid)
    ensures Inv(c) && ListsOutside(ids, c, rest) ==> ListsOutside(ids + [pid], c, rest - {e})
  {
    if Inv(c) && ListsOutside(ids, c, rest) {
      assert PlayersMirrored(c);
      hide Inv, EntitiesPresent, HandoffsLinked;
      assert pid !in PlayersOutside(c.playerByID, rest);
      assert PlayersOutside(c.playerByID, rest - {e}) == PlayersOutside(c.playerByID, rest) + {pid};
    }
  }

  /** An entity that is nobody's, or has no position, is no player's. */
  lemma NoneOutsideMore(ids: seq<string>, c: Cell, rest: set<Entity>, e: Entity)
    requires e !in c.world.positions || e !in c.players
    ensures Inv(c) && ListsOutside(ids, c, rest) ==> ListsOutside(ids, c, rest - {e})
  {
    if Inv(c) && ListsOutside(ids, c, rest) {
      assert forall p <- c.playerByID :: c.playerByID[p] in c.world.positions && c.playerByID[p] in c.players;
      hide Inv;
      assert PlayersOutside(c.playerByID, rest - {e}) == PlayersOutside(c.playerByID, rest);
    }
  }

  lemma OwnerIsPlayer(c: Cell, e: Entity, pid: string)
    requires IsOwner(c, e, pid)
    ensures pid == "" || pid in c.playerByID
  {
  }

  /** The player whose entity it is, or "" if it is nobody's. */
  predicate IsOwner(c: Cell, e: Entity, pid: string) {
    (pid in c.playerByID && c.playerByID[pid] == e) || (pid == "" && e !in c.playerByID.Values)
  }

  /** A search through the player table, in any order. */
  method PlayerIDByEntity(c: Cell, e: Entity) returns (pid: string)
    ensures IsOwner(c, e, pid)
  {
    var rest := c.playerByID.Keys;
    while rest != {}
      invariant rest <= c.playerByID.Keys
      invariant forall p <- c.playerByID :: p !in rest ==> c.playerByID[p] != e
    {
      var p :| p in rest;
      if c.playerByID[p] == e {
        return p;
      }
      rest := rest - {p};
    }
    pid := "";
  }
}
