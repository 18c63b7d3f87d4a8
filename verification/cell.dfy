/** One cell server as a value: the player tables, the world and the effect and
    answer of each call. Identifiers arrive trimmed (see `CellServer`). */
module CellState {
  import opened Text
  import opened Ecs

  /** What a prepared handoff carries from the source cell to the target. */
  datatype Payload = Payload(
    playerID: string, position: Position, velocity: Velocity, hpCur: real, hpMax: real,
    tick: nat, token: string, source: string, target: string, sourceEntity: Entity)

  datatype Prepared = Prepared(
    playerID: string, token: string, entity: Entity, finalized: bool, createdAt: nat, payload: Payload)

  datatype Loop = Loop(tick: nat, tps: real)

  datatype Cell = Cell(
    id: string,
    world: WorldState,
    loop: Loop,
    players: set<Entity>,
    playerByID: map<string, Entity>,
    frozen: set<string>,
    preparedByID: map<string, string>,
    preparedByTk: map<string, Prepared>,
    acceptedByTk: map<string, Entity>,
    drain: bool)

  function EmptyCell(id: string): Cell {
    Cell(id, EMPTY_WORLD, Loop(0, 25.0), {}, map[], {}, map[], map[], map[], false)
  }

  datatype Message =
    | EmptyPlayerID | AlreadyJoined | Draining | Spawned
    | Noop | Left
    | UnknownPlayer | PlayerFrozen | EntityGone | Applied
    | FieldsRequired | AlreadyPrepared | InProgress | PreparedNow
    | AlreadyAccepted | Accepted
    | UnknownToken | TokenMismatch | AlreadyFinalized | Finalized

  datatype Reply = Reply(ok: bool, message: Message, entity: Entity)

  datatype PrepareReply = PrepareReply(ok: bool, message: Message, payload: Option<Payload>)

  /** Nanoseconds after which an unfinished handoff counts as abandoned. */
  const STALE_AFTER: nat := 5_000_000_000

  const FULL_HEALTH := Health(100.0, 100.0)

  // ---------------------------------------------------------------- Join, Leave, ApplyInput

  function Join(c: Cell, pid: string): (Cell, Reply) {
    if pid == "" then (c, Reply(false, EmptyPlayerID, 0))
    else if pid in c.playerByID then (c, Reply(true, AlreadyJoined, c.playerByID[pid]))
    else if c.drain then (c, Reply(false, Draining, 0))
    else
      var e := c.world.Created();
      var w := c.world.Create().SetPosition(e, ORIGIN).SetVelocity(e, STILL).SetHealth(e, FULL_HEALTH);
      (c.(world := w, playerByID := c.playerByID[pid := e], players := c.players + {e}),
       Reply(true, Spawned, e))
  }

  function WithoutRecordsOf(records: map<string, Prepared>, pid: string): map<string, Prepared> {
    map tok <- records | records[tok].playerID != pid :: records[tok]
  }

  function Leave(c: Cell, pid: string): (Cell, Reply) {
    if pid == "" then (c, Reply(false, EmptyPlayerID, 0))
    else
      var active := if pid in c.preparedByID then {c.preparedByID[pid]} else {};
      var c1 := c.(frozen := c.frozen - {pid},
                   preparedByID := c.preparedByID - {pid},
                   preparedByTk := WithoutRecordsOf(c.preparedByTk - active, pid));
      if pid !in c.playerByID then (c1, Reply(true, Noop, 0))
      else
        var e := c.playerByID[pid];
        (c1.(playerByID := c.playerByID - {pid}, players := c.players - {e}, world := c.world.Destroy(e)),
         Reply(true, Left, 0))
  }

  function ApplyInput(c: Cell, pid: string, v: Velocity): (Cell, Reply) {
    if pid == "" then (c, Reply(false, EmptyPlayerID, 0))
    else if pid !in c.playerByID then (c, Reply(false, UnknownPlayer, 0))
    else if pid in c.frozen then (c, Reply(false, PlayerFrozen, 0))
    else
      var e := c.playerByID[pid];
      if e !in c.world.positions then (c, Reply(false, EntityGone, 0))
      else (c.(world := c.world.SetVelocity(e, v)), Reply(true, Applied, 0))
  }

  // ---------------------------------------------------------------- Prepare

  /** A player's active token is abandoned when it has no open record or a record that is too old. */
  predicate Abandoned(c: Cell, tok: string, now: nat) {
    tok !in c.preparedByTk ||
    var r := c.preparedByTk[tok];
    r.finalized || r.createdAt == 0 || now - r.createdAt > STALE_AFTER
  }

  function StalePlayers(c: Cell, now: nat): set<string> {
    set p <- c.preparedByID | Abandoned(c, c.preparedByID[p], now)
  }

  function Prune(c: Cell, now: nat): Cell {
    var stale := StalePlayers(c, now);
    var tokens := set p <- stale | c.preparedByID[p] != "" :: c.preparedByID[p];
    c.(preparedByID := c.preparedByID - stale,
       frozen := c.frozen - stale,
       preparedByTk := c.preparedByTk - tokens)
  }

  function HealthForPayload(w: WorldState, e: Entity): Health {
    if e in w.healths && w.healths[e].maxHP > 0.0 then w.healths[e] else FULL_HEALTH
  }

  function PayloadFor(c: Cell, pid: string, e: Entity, target: string, tok: string): Payload
    requires e in c.world.positions
  {
    var h := HealthForPayload(c.world, e);
    Payload(pid, c.world.positions[e], c.world.VelocityOrStill(e), h.hp, h.maxHP,
            c.loop.tick, tok, c.id, target, e)
  }

  function Prepare(c0: Cell, pid: string, target: string, tok: string, now: nat): (Cell, PrepareReply) {
    if pid == "" || target == "" || tok == "" then (c0, PrepareReply(false, FieldsRequired, None))
    else
      var c := Prune(c0, now);
      if tok in c.preparedByTk then
        (c, PrepareReply(true, AlreadyPrepared, Some(c.preparedByTk[tok].payload)))
      else
        PrepareFresh(c, pid, target, tok, now)
  }

  function PrepareFresh(c: Cell, pid: string, target: string, tok: string, now: nat): (Cell, PrepareReply)
    requires tok !in c.preparedByTk
  {
    var busy := pid in c.preparedByID && c.preparedByID[pid] != tok;
    if busy && !TooOld(c, c.preparedByID[pid], now) then (c, PrepareReply(false, InProgress, None))
    else
      var c1 := if busy then
                  c.(preparedByID := c.preparedByID - {pid}, frozen := c.frozen - {pid},
                     preparedByTk := c.preparedByTk - {c.preparedByID[pid]})
                else c;
      if pid !in c1.playerByID then (c1, PrepareReply(false, UnknownPlayer, None))
      else
        var e := c1.playerByID[pid];
        if e !in c1.world.positions then
          (c1.(preparedByID := c1.preparedByID - {pid}, frozen := c1.frozen - {pid}),
           PrepareReply(false, EntityGone, None))
        else
          var payload := PayloadFor(c1, pid, e, target, tok);
          (c1.(preparedByID := c1.preparedByID[pid := tok],
               frozen := c1.frozen + {pid},
               preparedByTk := c1.preparedByTk[tok := Prepared(pid, tok, e, false, now, payload)],
               world := c1.world.SetVelocity(e, STILL)),
           PrepareReply(true, PreparedNow, Some(payload)))
  }

  /** The second staleness test of `Prepare`: it does not look at `finalized`. */
  predicate TooOld(c: Cell, tok: string, now: nat) {
    tok !in c.preparedByTk || c.preparedByTk[tok].createdAt == 0 ||
    now - c.preparedByTk[tok].createdAt > STALE_AFTER
  }

  // ---------------------------------------------------------------- Accept, Finalize

  function ArrivalHealth(p: Payload): Health {
    var maxHP := if p.hpMax <= 0.0 then 100.0 else p.hpMax;
    Health(if p.hpCur <= 0.0 then maxHP else p.hpCur, maxHP)
  }

  function Arrive(w: WorldState, e: Entity, p: Payload): WorldState {
    w.SetPosition(e, p.position).SetVelocity(e, p.velocity).SetHealth(e, ArrivalHealth(p))
  }

  function Accept(c: Cell, p: Payload): (Cell, Reply) {
    if p.playerID == "" || p.token == "" then (c, Reply(false, FieldsRequired, 0))
    else if p.token in c.acceptedByTk then (c, Reply(true, AlreadyAccepted, c.acceptedByTk[p.token]))
    else
      var known := p.playerID in c.playerByID;
      var e := if known then c.playerByID[p.playerID] else c.world.Created();
      var w := Arrive(if known then c.world else c.world.Create(), e, p);
      (c.(world := w,
          playerByID := c.playerByID[p.playerID := e],
          players := c.players + {e},
          acceptedByTk := c.acceptedByTk[p.token := e]),
       Reply(true, Accepted, e))
  }

  function Finalize(c: Cell, pid: string, tok: string): (Cell, Reply) {
    if pid == "" || tok == "" then (c, Reply(false, FieldsRequired, 0))
    else if tok !in c.preparedByTk then
      (if pid in c.preparedByID && c.preparedByID[pid] == tok
       then c.(preparedByID := c.preparedByID - {pid}, frozen := c.frozen - {pid}) else c,
       Reply(false, UnknownToken, 0))
    else
      var r := c.preparedByTk[tok];
      if r.playerID != pid then (c, Reply(false, TokenMismatch, 0))
      else if r.finalized then (c, Reply(true, AlreadyFinalized, 0))
      else
        var here := pid in c.playerByID;
        var e := if here then c.playerByID[pid] else r.entity;
        (c.(preparedByTk := c.preparedByTk[tok := r.(finalized := true)],
            preparedByID := c.preparedByID - {pid},
            frozen := c.frozen - {pid},
            playerByID := c.playerByID - {pid},
            players := if here then c.players - {e} else c.players,
            world := if here || e != 0 then c.world.Destroy(e) else c.world),
         Reply(true, Finalized, 0))
  }

  // ---------------------------------------------------------------- simulation

  const REGEN_PER_SEC := 2.0

  /** One simulation step: movement, then regeneration. */
  function Tick(c: Cell): Cell
    requires c.loop.tps > 0.0
  {
    var dt := 1.0 / c.loop.tps;
    c.(world := c.world.Moved(dt).Regenerated(REGEN_PER_SEC, dt), loop := c.loop.(tick := c.loop.tick + 1))
  }
}
