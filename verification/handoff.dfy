/** The driver that moves one player between two cells: prepare at the source,
    accept at the target, finalize at the source, with every early exit. */
module Handoff {
  import opened Text
  import opened Ecs
  import opened CellState
  import opened CellInvariant

  datatype Outcome =
    | Rejected | NotFound | PrepareFailed | AcceptFailed | FinalizeFailed
    | Done(entity: Entity)

  /** How far a drive gets before its driver stops. */
  datatype Reach = Nowhere | Prepared | Accepted | Finished

  type Cells = map<string, Cell>

  function Readdressed(p: Payload, parent: string, child: string, tok: string): Payload {
    p.(source := parent, target := child, token := tok)
  }

  /** The drive cut off after `reach`; the clock is read once, at Prepare. */
  function Drive(cells: Cells, parent: string, child: string, pid: string, tok: string, now: nat,
                 reach: Reach): (Cells, Outcome) {
    if parent == "" || child == "" || pid == "" || tok == "" || parent == child then (cells, Rejected)
    else if parent !in cells || child !in cells then (cells, NotFound)
    else if reach.Nowhere? then (cells, PrepareFailed)
    else
      var (source, prep) := Prepare(cells[parent], pid, child, tok, now);
      var cells1 := cells[parent := source];
      if !prep.ok || prep.payload.None? || reach.Prepared? then (cells1, PrepareFailed)
      else
        var (target, acc) := Accept(cells[child], Readdressed(prep.payload.value, parent, child, tok));
        var cells2 := cells1[child := target];
        if !acc.ok || acc.entity == 0 || reach.Accepted? then (cells2, AcceptFailed)
        else
          var (closed, fin) := Finalize(source, pid, tok);
          (cells2[parent := closed], if fin.ok then Done(acc.entity) else FinalizeFailed)
  }

  // ---------------------------------------------------------------- one uninterrupted drive

  /** A first drive of the player with this token may go ahead. */
  predicate Fresh(cells: Cells, parent: string, child: string, pid: string, tok: string) {
    parent in cells && child in cells && parent != child && parent != "" && child != "" && pid != "" && tok != "" &&
    pid in cells[parent].playerByID && pid !in cells[parent].frozen &&
    tok !in cells[parent].preparedByTk && tok !in cells[child].acceptedByTk
  }

  ghost predicate Sound(cells: Cells, parent: string, child: string) {
    parent in cells && child in cells && Inv(cells[parent]) && Inv(cells[child])
  }

  /** What a completed drive leaves behind: the player only in the target, as one entity. */
  ghost predicate Moved(before: Cells, after: Cells, parent: string, child: string, pid: string, e: Entity)
    requires parent in before && child in before && pid in before[parent].playerByID
  {
    var source, target := before[parent], before[child];
    parent in after && child in after && after.Keys == before.Keys &&
    (forall id <- before :: id != parent && id != child ==> after[id] == before[id]) &&
    after[parent].playerByID == source.playerByID - {pid} &&
    after[parent].world.alive == source.world.alive - {source.playerByID[pid]} &&
    after[child].playerByID == target.playerByID[pid := e] &&
    after[child].world.alive == target.world.alive + {e} &&
    (pid in target.playerByID ==> e == target.playerByID[pid])
  }

  lemma PrepareFirst(c: Cell, pid: string, target: string, tok: string, now: nat)
    requires Inv(c) && now > 0 && pid in c.playerByID && pid !in c.frozen
    requires tok !in c.preparedByTk && pid != "" && tok != "" && target != ""
    ensures var (d, reply) := Prepare(c, pid, target, tok, now);
            var e := c.playerByID[pid];
            Inv(d) && reply.ok && reply.payload == Some(PayloadFor(c, pid, e, target, tok)) &&
            d.playerByID == c.playerByID && d.world == c.world.SetVelocity(e, STILL) &&
            d.acceptedByTk == c.acceptedByTk &&
            OpenAt(d, pid, tok, now, PayloadFor(c, pid, e, target, tok)) && d.loop == c.loop && d.id == c.id
  {
    PruneKeeps(c, now);
    PrepareKeeps(c, pid, target, tok, now);
    var b := Prune(c, now);
    assert PayloadFor(b, pid, c.playerByID[pid], target, tok) == PayloadFor(c, pid, c.playerByID[pid], target, tok);
  }

  predicate OpenAt(c: Cell, pid: string, tok: string, since: nat, payload: Payload) {
    HasOpenRecord(c, pid, tok) && c.preparedByTk[tok].createdAt == since && c.preparedByTk[tok].payload == payload
  }

  lemma FinalizeOpen(c: Cell, pid: string, tok: string)
    requires Inv(c) && pid != "" && tok != "" && HasOpenRecord(c, pid, tok)
    ensures var (d, reply) := Finalize(c, pid, tok);
            Inv(d) && reply.ok && pid in c.playerByID &&
            d.playerByID == c.playerByID - {pid} && d.world == c.world.Destroy(c.playerByID[pid]) &&
            tok in d.preparedByTk && d.preparedByTk[tok] == c.preparedByTk[tok].(finalized := true)
  {
    assert RecordLinked(c, tok);
    FinalizeKeeps(c, pid, tok);
  }

  lemma AcceptFirst(c: Cell, p: Payload)
    requires Inv(c) && (c.world.HasRoom() || p.playerID in c.playerByID)
    requires p.playerID != "" && p.token != "" && p.token !in c.acceptedByTk
    ensures var (d, reply) := Accept(c, p);
            var e := reply.entity;
            Inv(d) && reply.ok && e != 0 && d.acceptedByTk == c.acceptedByTk[p.token := e] &&
            d.playerByID == c.playerByID[p.playerID := e] && d.world.alive == c.world.alive + {e} &&
            d.preparedByTk == c.preparedByTk && d.preparedByID == c.preparedByID && d.frozen == c.frozen &&
            (p.playerID in c.playerByID ==> e == c.playerByID[p.playerID]) &&
            ArrivedAs(d.world, e, p)
  {
    AcceptKeeps(c, p);
    CreateIsFresh(c.world);
  }

  predicate ArrivedAs(w: WorldState, e: Entity, p: Payload) {
    e in w.positions && w.positions[e] == p.position &&
    e in w.velocities && w.velocities[e] == p.velocity &&
    e in w.healths && w.healths[e] == ArrivalHealth(p)
  }

  /** The arrival stands where the player stood, moves as they moved before the
      freeze, and has their health if it was positive. */
  predicate Faithful(source: WorldState, who: Entity, target: WorldState, e: Entity)
    requires who in source.positions
  {
    e in target.positions && target.positions[e] == source.positions[who] &&
    e in target.velocities && target.velocities[e] == source.VelocityOrStill(who) &&
    SameHealth(source, who, target, e)
  }

  predicate SameHealth(source: WorldState, who: Entity, target: WorldState, e: Entity) {
    e in target.healths &&
    (who in source.healths && source.healths[who].maxHP > 0.0 && source.healths[who].hp > 0.0 ==>
       target.healths[e] == source.healths[who])
  }

  /** An undisturbed first drive succeeds and moves the player faithfully. */
  lemma DriveMoves(cells: Cells, parent: string, child: string, pid: string, tok: string, now: nat)
    requires Sound(cells, parent, child) && Fresh(cells, parent, child, pid, tok) && now > 0
    requires cells[child].world.HasRoom() || pid in cells[child].playerByID
    ensures var (after, outcome) := Drive(cells, parent, child, pid, tok, now, Finished);
            outcome.Done? && Moved(cells, after, parent, child, pid, outcome.entity) && Sound(after, parent, child) &&
            Faithful(cells[parent].world, cells[parent].playerByID[pid], after[child].world, outcome.entity)
  {
    hide Inv, Prepare, Accept, Finalize;
    var c := cells[parent];
    PrepareFirst(c, pid, child, tok, now);
    var (source, prep) := Prepare(c, pid, child, tok, now);
    var p := Readdressed(prep.payload.value, parent, child, tok);
    AcceptFirst(cells[child], p);
    FinalizeOpen(source, pid, tok);
    RegisteredIsPositioned(c, pid);
  }

  lemma RegisteredIsPositioned(c: Cell, pid: string)
    requires Inv(c) && pid in c.playerByID
    ensures c.playerByID[pid] in c.world.positions && c.playerByID[pid] in c.world.alive && c.playerByID[pid] != 0
  {
  }

  // ---------------------------------------------------------------- calls put together, and calls repeated

  /** A drive all of whose calls succeed, put together from their answers. */
  lemma DriveOf(cells: Cells, parent: string, child: string, pid: string, tok: string, now: nat, p: Payload, e: Entity)
    requires parent in cells && child in cells && parent != child && parent != "" && child != "" && pid != "" && tok != ""
    requires var prep := Prepare(cells[parent], pid, child, tok, now).1; prep.ok && prep.payload == Some(p)
    requires var acc := Accept(cells[child], Readdressed(p, parent, child, tok)).1; acc.ok && acc.entity == e && e != 0
    requires Finalize(Prepare(cells[parent], pid, child, tok, now).0, pid, tok).1.ok
    ensures Drive(cells, parent, child, pid, tok, now, Finished) ==
            (cells[parent := Finalize(Prepare(cells[parent], pid, child, tok, now).0, pid, tok).0]
                  [child := Accept(cells[child], Readdressed(p, parent, child, tok)).0], Done(e))
  {
    hide Prepare, Accept, Finalize;
    var source, target := Prepare(cells[parent], pid, child, tok, now).0, Accept(cells[child], Readdressed(p, parent, child, tok)).0;
    var closed := Finalize(source, pid, tok).0;
    assert cells[parent := source][child := target][parent := closed] == cells[parent := closed][child := target];
  }

  /** A repeated Accept changes nothing and names the same entity. */
  lemma AcceptRepeats(c: Cell, p: Payload)
    requires p.token in c.acceptedByTk && p.token != "" && p.playerID != ""
    ensures Accept(c, p) == (c, Reply(true, AlreadyAccepted, c.acceptedByTk[p.token]))
  {
  }

  /** A repeated Finalize removes nobody, whoever is registered by then. */
  lemma FinalizeRepeats(c: Cell, pid: string, tok: string)
    requires tok in c.preparedByTk && c.preparedByTk[tok].finalized
    ensures Finalize(c, pid, tok).0 == c
    ensures pid != "" && tok != "" && c.preparedByTk[tok].playerID == pid ==> Finalize(c, pid, tok).1.ok
  {
  }

  // ---------------------------------------------------------------- the frozen player stands still

  predicate StandsStill(c: Cell, pid: string, at: Position) {
    pid in c.playerByID && pid in c.frozen &&
    var e := c.playerByID[pid];
    e in c.world.positions && c.world.positions[e] == at && e in c.world.velocities && c.world.velocities[e] == STILL
  }

  /** Preparing leaves the player standing where they were. */
  lemma PreparedStandsStill(c: Cell, pid: string, target: string, tok: string, now: nat)
    requires Inv(c) && now > 0 && pid in c.playerByID && pid !in c.frozen
    requires tok !in c.preparedByTk && pid != "" && tok != "" && target != ""
    ensures c.playerByID[pid] in c.world.positions
    ensures StandsStill(Prepare(c, pid, target, tok, now).0, pid, c.world.positions[c.playerByID[pid]])
  {
    PrepareFirst(c, pid, target, tok, now);
    var d := Prepare(c, pid, target, tok, now).0;
    assert RecordLinked(d, tok);
    assert pid in d.frozen;
  }

  lemma MirroredIn(c: Cell)
    requires Inv(c)
    ensures PlayersMirrored(c)
  {
  }

  lemma TickSpares(c: Cell, pid: string, at: Position)
    requires StandsStill(c, pid, at) && c.loop.tps > 0.0
    ensures StandsStill(Tick(c), pid, at)
  {
  }

  lemma InputSpares(c: Cell, pid: string, at: Position, p: string, v: Velocity)
    requires PlayersMirrored(c) && StandsStill(c, pid, at)
    ensures StandsStill(ApplyInput(c, p, v).0, pid, at)
  {
  }
}
