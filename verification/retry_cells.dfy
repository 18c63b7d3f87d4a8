/** What the two cells of one handover keep while both go on: under simulation
    steps, inputs, and the calls of other players and drivers, and under the
    handover's own three calls. */
module RetryCells {
  import opened Text
  import opened Ecs
  import opened CellState
  import opened CellInvariant
  import opened Handoff

  /** Which player is moved from where to where, under which token. */
  datatype Handover = Handover(source: string, target: string, player: string, token: string)

  predicate Named(h: Handover) {
    h.source != "" && h.target != "" && h.source != h.target && h.player != "" && h.token != ""
  }

  /** One call on one cell, or a step of its loop. */
  datatype Call =
    | Ticks
    | Moves(player: string, velocity: Velocity)
    | Joins(player: string)
    | Leaves(player: string)
    | Prepares(player: string, target: string, token: string, now: nat)
    | Accepts(payload: Payload)
    | Finalizes(player: string, token: string)
    | Drains(on: bool)

  function Do(c: Cell, call: Call): Cell {
    match call
    case Ticks => if c.loop.tps > 0.0 then Tick(c) else c
    case Moves(p, v) => ApplyInput(c, p, v).0
    case Joins(p) => Join(c, p).0
    case Leaves(p) => Leave(c, p).0
    case Prepares(p, target, t, now) => Prepare(c, p, target, t, now).0
    case Accepts(p) => Accept(c, p).0
    case Finalizes(p, t) => Finalize(c, p, t).0
    case Drains(on) => c.(drain := on)
  }

  /** The entity counter has an id left if the call may need one. */
  predicate HasIds(c: Cell, call: Call) {
    match call
    case Joins(p) => p in c.playerByID || c.world.HasRoom()
    case Accepts(p) => p.token in c.acceptedByTk || p.playerID in c.playerByID || c.world.HasRoom()
    case _ => true
  }

  /** Calls at the source that are not this handover's, and do not make its player
      join, leave or arrive there, or finish another handoff of theirs. */
  predicate AtSource(h: Handover, call: Call) {
    match call
    case Joins(p) => p != h.player
    case Leaves(p) => p != h.player
    case Prepares(_, _, t, now) => t != h.token && now > 0
    case Accepts(p) => p.playerID != h.player
    case Finalizes(p, _) => p != h.player
    case _ => true
  }

  /** The same at the target, where the player may be prepared for the next handoff. */
  predicate AtTarget(h: Handover, call: Call) {
    match call
    case Joins(p) => p != h.player
    case Leaves(p) => p != h.player
    case Prepares(_, _, _, now) => now > 0
    case Accepts(p) => p.playerID != h.player && p.token != h.token
    case Finalizes(p, _) => p != h.player
    case _ => true
  }

  // ---------------------------------------------------------------- what other calls spare at the source

  ghost predicate IdsOnlyGrow(v: WorldState, w: WorldState) {
    v.nextID <= w.nextID && forall e <- w.alive :: e in v.alive || e > v.nextID
  }

  /** A record under the token is the handover's. */
  predicate Owned(c: Cell, h: Handover) {
    h.token in c.preparedByTk ==> c.preparedByTk[h.token].playerID == h.player
  }

  /** The player's registration and the token's record are as before, except that an
      open record may be pruned; while it is open, a player who stood still stands still. */
  ghost predicate Spared(c: Cell, d: Cell, h: Handover) {
    SameAt(c, d, h) && IdsOnlyGrow(c.world, d.world) && StillStands(c, d, h)
  }

  predicate SameAt(c: Cell, d: Cell, h: Handover) {
    (h.player in d.playerByID <==> h.player in c.playerByID) &&
    (h.player in c.playerByID ==> d.playerByID[h.player] == c.playerByID[h.player]) &&
    (h.token in d.preparedByTk ==> h.token in c.preparedByTk && d.preparedByTk[h.token] == c.preparedByTk[h.token]) &&
    (h.token in c.preparedByTk && c.preparedByTk[h.token].finalized ==> h.token in d.preparedByTk)
  }

  ghost predicate StillStands(c: Cell, d: Cell, h: Handover) {
    forall at :: StandsStill(c, h.player, at) && HasOpenRecord(d, h.player, h.token) ==> StandsStill(d, h.player, at)
  }

  predicate SameMotion(v: WorldState, w: WorldState, e: Entity) {
    (e in w.positions <==> e in v.positions) && (e in v.positions ==> w.positions[e] == v.positions[e]) &&
    (e in w.velocities <==> e in v.velocities) && (e in v.velocities ==> w.velocities[e] == v.velocities[e])
  }

  lemma OpenIsFrozen(c: Cell, pid: string, tok: string)
    requires Inv(c) && HasOpenRecord(c, pid, tok)
    ensures pid in c.frozen && pid in c.playerByID && c.preparedByID[pid] == tok
  {
    assert RecordLinked(c, tok);
  }

  lemma MotionStands(c: Cell, d: Cell, h: Handover)
    requires Inv(d) && SameAt(c, d, h)
    requires h.player in c.playerByID ==> SameMotion(c.world, d.world, c.playerByID[h.player])
    ensures StillStands(c, d, h)
  {
    hide Inv;
    forall at | StandsStill(c, h.player, at) && HasOpenRecord(d, h.player, h.token) ensures StandsStill(d, h.player, at) {
      OpenIsFrozen(d, h.player, h.token);
    }
  }

  lemma PlayerIsAlive(c: Cell, p: string)
    requires Inv(c) && p in c.playerByID
    ensures c.playerByID[p] in c.world.alive && c.playerByID[p] in c.world.positions && 1 <= c.playerByID[p] <= c.world.nextID < ID_SPACE
  {
  }

  lemma PlayersApart(c: Cell, p: string, q: string)
    requires Inv(c) && p in c.playerByID && q in c.playerByID && p != q
    ensures c.playerByID[p] != c.playerByID[q]
  {
  }

  lemma JoinSpares(c: Cell, p: string, h: Handover)
    requires Inv(c) && p != h.player && (p in c.playerByID || c.world.HasRoom())
    ensures var d := Join(c, p).0; Inv(d) && Spared(c, d, h) && d.preparedByTk == c.preparedByTk
  {
    hide Inv, Join, StandsStill, StillStands, SameMotion, HasOpenRecord;
    var d := Join(c, p).0;
    JoinKeeps(c, p);
    if h.player in c.playerByID {
      PlayerIsAlive(c, h.player);
      JoinFacts(c, p, c.playerByID[h.player]);
    } else {
      JoinFacts(c, p, 0);
    }
    NextIsAbove(c);
    MotionStands(c, d, h);
  }

  /** What a Join leaves: the cell, or one new entity. */
  lemma JoinFacts(c: Cell, p: string, x: Entity)
    ensures var d, e := Join(c, p).0, c.world.Created();
            d.preparedByTk == c.preparedByTk && (x != e || d.world == c.world ==> SameMotion(c.world, d.world, x)) &&
            ((d.playerByID == c.playerByID && d.world == c.world) ||
             (p !in c.playerByID && d.playerByID == c.playerByID[p := e] && d.world.nextID == e && d.world.alive == c.world.alive + {e}))
  {
  }

  lemma NextIsAbove(c: Cell)
    requires Inv(c)
    ensures c.world.HasRoom() ==> c.world.Created() == c.world.nextID + 1
  {
  }

  lemma LeaveSpares(c: Cell, p: string, h: Handover)
    requires Inv(c) && p != h.player && Owned(c, h)
    ensures var d := Leave(c, p).0;
            Inv(d) && Spared(c, d, h) && (h.token in c.preparedByTk ==> h.token in d.preparedByTk)
  {
    hide Inv, Leave, StandsStill, StillStands, SameMotion, HasOpenRecord;
    var d := Leave(c, p).0;
    LeaveKeeps(c, p);
    ActiveIsOwn(c, p, h);
    LeaveFacts(c, p, h);
    if h.player in c.playerByID && p in c.playerByID {
      PlayersApart(c, h.player, p);
    }
    MotionStands(c, d, h);
  }

  /** What a Leave leaves: the cell without the player, their entity and records. */
  lemma LeaveFacts(c: Cell, p: string, h: Handover)
    requires p != h.player && Owned(c, h)
    ensures var d := Leave(c, p).0;
            (h.token in d.preparedByTk ==> h.token in c.preparedByTk && d.preparedByTk[h.token] == c.preparedByTk[h.token]) &&
            (h.token in c.preparedByTk && !(p in c.preparedByID && c.preparedByID[p] == h.token) ==> h.token in d.preparedByTk) &&
            d.world.nextID == c.world.nextID && d.world.alive <= c.world.alive &&
            (h.player in d.playerByID <==> h.player in c.playerByID) &&
            (h.player in c.playerByID ==>
              (d.playerByID[h.player] == c.playerByID[h.player] &&
               (p !in c.playerByID || c.playerByID[p] != c.playerByID[h.player] ==> SameMotion(c.world, d.world, c.playerByID[h.player]))))
  {
  }

  /** Another player's active token is not the handover's. */
  lemma ActiveIsOwn(c: Cell, p: string, h: Handover)
    requires Inv(c) && p != h.player && Owned(c, h)
    ensures p in c.preparedByID && c.preparedByID[p] == h.token ==> h.token !in c.preparedByTk
  {
    if p in c.preparedByID {
      assert HasOpenRecord(c, p, c.preparedByID[p]);
    }
  }

  lemma AcceptSpares(c: Cell, p: Payload, h: Handover)
    requires Inv(c) && p.playerID != h.player && HasIds(c, Accepts(p))
    ensures var d := Accept(c, p).0; Inv(d) && Spared(c, d, h) && d.preparedByTk == c.preparedByTk
  {
    hide Inv, Accept, StandsStill, StillStands, SameMotion, HasOpenRecord;
    var d := Accept(c, p).0;
    AcceptKeeps(c, p);
    if h.player in c.playerByID {
      PlayerIsAlive(c, h.player);
      AcceptFacts(c, p, c.playerByID[h.player]);
      if p.playerID in c.playerByID {
        PlayersApart(c, h.player, p.playerID);
      }
    } else {
      AcceptFacts(c, p, 0);
    }
    if p.playerID in c.playerByID {
      PlayerIsAlive(c, p.playerID);
    }
    NextIsAbove(c);
    MotionStands(c, d, h);
  }

  /** What an Accept leaves: the cell, or the arrived player's entity, new or their own. */
  lemma AcceptFacts(c: Cell, p: Payload, x: Entity)
    ensures var d := Accept(c, p).0;
            var e := if p.playerID in c.playerByID then c.playerByID[p.playerID] else c.world.Created();
            d.preparedByTk == c.preparedByTk && (x != e || d == c ==> SameMotion(c.world, d.world, x)) &&
            (d == c ||
             (p.token !in c.acceptedByTk && d.playerByID == c.playerByID[p.playerID := e] &&
              d.world.nextID == (if p.playerID in c.playerByID then c.world.nextID else e) &&
              d.world.alive == (if p.playerID in c.playerByID then c.world.alive else c.world.alive + {e})))
  {
  }

  lemma FinalizeSpares(c: Cell, p: string, tok: string, h: Handover)
    requires Inv(c) && p != h.player && Owned(c, h)
    ensures var d := Finalize(c, p, tok).0;
            Inv(d) && Spared(c, d, h) && (h.token in c.preparedByTk ==> h.token in d.preparedByTk)
  {
    hide Inv, Finalize, StandsStill, StillStands, SameMotion;
    var d := Finalize(c, p, tok).0;
    FinalizeKeeps(c, p, tok);
    OpenIsRegistered(c, p, tok);
    FinalizeFacts(c, p, tok, h);
    if h.player in c.playerByID && p in c.playerByID {
      PlayersApart(c, h.player, p);
    }
    MotionStands(c, d, h);
  }

  lemma FinalizeFacts(c: Cell, p: string, tok: string, h: Handover)
    requires p != h.player && Owned(c, h) && (HasOpenRecord(c, p, tok) ==> p in c.playerByID)
    ensures var d := Finalize(c, p, tok).0;
            (h.token in d.preparedByTk <==> h.token in c.preparedByTk) &&
            (h.token in c.preparedByTk ==> d.preparedByTk[h.token] == c.preparedByTk[h.token]) &&
            d.world.nextID == c.world.nextID && d.world.alive <= c.world.alive &&
            (h.player in d.playerByID <==> h.player in c.playerByID) &&
            (h.player in c.playerByID ==>
              (d.playerByID[h.player] == c.playerByID[h.player] &&
               (p !in c.playerByID || c.playerByID[p] != c.playerByID[h.player] ==> SameMotion(c.world, d.world, c.playerByID[h.player]))))
  {
    FinalizeCases(c, p, tok);
    hide Finalize;
  }

  lemma FinalizeCases(c: Cell, p: string, tok: string)
    requires HasOpenRecord(c, p, tok) ==> p in c.playerByID
    ensures var d := Finalize(c, p, tok).0;
            if p != "" && tok != "" && HasOpenRecord(c, p, tok)
            then d.preparedByTk == c.preparedByTk[tok := c.preparedByTk[tok].(finalized := true)] &&
                 d.playerByID == c.playerByID - {p} && d.world == c.world.Destroy(c.playerByID[p])
            else d.preparedByTk == c.preparedByTk && d.playerByID == c.playerByID && d.world == c.world
  {
    hide WorldState.Destroy;
  }

  lemma OpenIsRegistered(c: Cell, p: string, tok: string)
    requires Inv(c)
    ensures HasOpenRecord(c, p, tok) ==> p in c.playerByID
  {
    if HasOpenRecord(c, p, tok) {
      OpenIsFrozen(c, p, tok);
    }
  }

  lemma PrepareSpares(c: Cell, p: string, target: string, tok: string, now: nat, h: Handover)
    requires Inv(c) && tok != h.token && now > 0 && Owned(c, h)
    ensures var d := Prepare(c, p, target, tok, now).0;
            Inv(d) && Spared(c, d, h) &&
            (h.token in c.preparedByTk && now - c.preparedByTk[h.token].createdAt <= STALE_AFTER ==> h.token in d.preparedByTk)
  {
    var d := Prepare(c, p, target, tok, now).0;
    PrepareKeeps(c, p, target, tok, now);
    PruneKeeps(c, now);
    if p != "" && target != "" && tok != "" && tok !in Prune(c, now).preparedByTk {
      var b := Prune(c, now);
      hide Prune;
      FreshCases(b, p, target, tok, now);
      FreshSpares(b, p, target, tok, now, h);
      hide PrepareFresh, Inv;
      assert d == PrepareFresh(b, p, target, tok, now).0;
      PrunedMotion(c, b, d, h);
    } else {
      hide Inv;
      MotionStands(c, d, h);
    }
  }

  lemma PrunedMotion(c: Cell, b: Cell, d: Cell, h: Handover)
    requires b.playerByID == c.playerByID && b.world == c.world && Inv(b) && Spared(b, d, h)
    requires forall t <- b.preparedByTk :: t in c.preparedByTk && b.preparedByTk[t] == c.preparedByTk[t]
    requires h.token in c.preparedByTk && c.preparedByTk[h.token].finalized ==> h.token in b.preparedByTk
    ensures Spared(c, d, h)
  {
    hide Inv;
    MotionStands(c, b, h);
    forall at | StandsStill(c, h.player, at) && HasOpenRecord(d, h.player, h.token) ensures StandsStill(d, h.player, at) {
      assert HasOpenRecord(b, h.player, h.token);
    }
  }

  lemma FreshSpares(c: Cell, p: string, target: string, tok: string, now: nat, h: Handover)
    requires Inv(c) && tok !in c.preparedByTk && tok != h.token && Inv(PrepareFresh(c, p, target, tok, now).0)
    requires p in c.playerByID ==> c.playerByID[p] in c.world.positions
    requires PrepareFresh(c, p, target, tok, now).0 ==
             if p in c.frozen || p !in c.playerByID then c else Froze(c, p, target, tok, now)
    ensures var d := PrepareFresh(c, p, target, tok, now).0;
            Spared(c, d, h) && (h.token in c.preparedByTk ==> h.token in d.preparedByTk)
  {
    hide Inv, PrepareFresh, StandsStill, StillStands, SameMotion, HasOpenRecord, Froze;
    var d := PrepareFresh(c, p, target, tok, now).0;
    if p in c.frozen || p !in c.playerByID {
      SameSpares(c, h);
    } else if p == h.player {
      FrozeFacts(c, p, target, tok, now, h);
      FrozeOwn(c, target, tok, now, h);
    } else {
      if h.player in c.playerByID {
        PlayersApart(c, h.player, p);
      }
      FrozeFacts(c, p, target, tok, now, h);
      MotionStands(c, d, h);
    }
  }

  lemma SameSpares(c: Cell, h: Handover)
    ensures Spared(c, c, h)
  {
    hide StandsStill;
  }

  lemma FrozeFacts(c: Cell, p: string, target: string, tok: string, now: nat, h: Handover)
    requires p in c.playerByID && c.playerByID[p] in c.world.positions && tok !in c.preparedByTk && tok != h.token
    ensures var d := Froze(c, p, target, tok, now);
            SameAt(c, d, h) && IdsOnlyGrow(c.world, d.world) && (h.token in c.preparedByTk ==> h.token in d.preparedByTk) &&
            (h.player in c.playerByID && c.playerByID[h.player] != c.playerByID[p] ==> SameMotion(c.world, d.world, c.playerByID[h.player]))
  {
    hide PayloadFor;
  }

  /** An unfrozen player did not stand still under a handoff. */
  lemma FrozeOwn(c: Cell, target: string, tok: string, now: nat, h: Handover)
    requires h.player in c.playerByID && c.playerByID[h.player] in c.world.positions && h.player !in c.frozen
    ensures StillStands(c, Froze(c, h.player, target, tok, now), h)
  {
    hide Froze;
  }

  lemma TickSparesAll(c: Cell, h: Handover)
    requires Inv(c) && c.loop.tps > 0.0
    ensures Inv(Tick(c)) && Spared(c, Tick(c), h) && Tick(c).preparedByTk == c.preparedByTk
  {
    TickKeeps(c);
    forall at | StandsStill(c, h.player, at) ensures StandsStill(Tick(c), h.player, at) {
      TickSpares(c, h.player, at);
    }
    hide Inv, StandsStill, WorldState.IdsBelowCounter;
  }

  lemma InputSparesAll(c: Cell, p: string, v: Velocity, h: Handover)
    requires Inv(c)
    ensures var d := ApplyInput(c, p, v).0; Inv(d) && Spared(c, d, h) && d.preparedByTk == c.preparedByTk
  {
    InputKeeps(c, p, v);
    MirroredIn(c);
    forall at | StandsStill(c, h.player, at) ensures StandsStill(ApplyInput(c, p, v).0, h.player, at) {
      InputSpares(c, h.player, at, p, v);
    }
    hide Inv, StandsStill;
  }

  lemma DrainSpares(c: Cell, on: bool, h: Handover)
    requires Inv(c)
    ensures var d := c.(drain := on); Inv(d) && Spared(c, d, h)
  {
    var d := c.(drain := on);
    assert forall tok <- d.preparedByTk :: RecordLinked(c, tok);
    assert forall p <- d.preparedByID :: HasOpenRecord(c, p, c.preparedByID[p]);
  }

  /** The call does not prune the handover's record. */
  predicate InTime(c: Cell, call: Call, h: Handover) {
    call.Prepares? && h.token in c.preparedByTk ==> call.now - c.preparedByTk[h.token].createdAt <= STALE_AFTER
  }

  lemma CallSpares(c: Cell, call: Call, h: Handover)
    requires Inv(c) && Owned(c, h) && AtSource(h, call) && HasIds(c, call)
    ensures Inv(Do(c, call)) && Spared(c, Do(c, call), h)
    ensures h.token in c.preparedByTk && InTime(c, call, h) ==> h.token in Do(c, call).preparedByTk
  {
    hide Inv, Spared, Tick, ApplyInput, Join, Leave, Prepare, Accept, Finalize;
    match call
    case Ticks =>
      if c.loop.tps > 0.0 {
        TickSparesAll(c, h);
      } else {
        assert c.(drain := c.drain) == c;
        DrainSpares(c, c.drain, h);
      }
    case Moves(p, v) => InputSparesAll(c, p, v, h);
    case Joins(p) => JoinSpares(c, p, h);
    case Leaves(p) => LeaveSpares(c, p, h);
    case Prepares(p, target, t, now) => PrepareSpares(c, p, target, t, now, h);
    case Accepts(p) => AcceptSpares(c, p, h);
    case Finalizes(p, t) => FinalizeSpares(c, p, t, h);
    case Drains(on) => DrainSpares(c, on, h);
  }

  // ---------------------------------------------------------------- the source between calls

  /** The source cell as the `number`-th effective Prepare of the token found it, and when. */
  datatype Snap = Snap(number: nat, cell: Cell, since: nat)

  predicate Open(c: Cell, h: Handover) {
    HasOpenRecord(c, h.player, h.token)
  }

  predicate Closed(c: Cell, h: Handover) {
    h.token in c.preparedByTk && c.preparedByTk[h.token].finalized
  }

  /** The player is registered as `e0` until the handoff is finished; then they and the entity are gone. */
  predicate Whereabouts(c: Cell, h: Handover, e0: Entity) {
    if Closed(c, h) then h.player !in c.playerByID && e0 !in c.world.alive && e0 <= c.world.nextID
    else h.player in c.playerByID && c.playerByID[h.player] == e0
  }

  /** The record is that of the last effective Prepare, and while it is open the player stands where that found them. */
  predicate Matches(c: Cell, h: Handover, e0: Entity, snap: Option<Snap>) {
    h.token in c.preparedByTk ==>
      (snap.Some? && e0 in snap.value.cell.world.positions && c.preparedByTk[h.token].createdAt == snap.value.since &&
       c.preparedByTk[h.token].payload == PayloadFor(snap.value.cell, h.player, e0, h.target, h.token) &&
       (Open(c, h) ==> StandsStill(c, h.player, snap.value.cell.world.positions[e0])))
  }

  ghost predicate SourceOk(c: Cell, h: Handover, e0: Entity, snap: Option<Snap>) {
    Inv(c) && Owned(c, h) && Whereabouts(c, h, e0) && Matches(c, h, e0, snap)
  }

  lemma SparedKeepsSource(c: Cell, d: Cell, h: Handover, e0: Entity, snap: Option<Snap>)
    requires SourceOk(c, h, e0, snap) && Inv(d) && Spared(c, d, h)
    ensures SourceOk(d, h, e0, snap) && (Closed(d, h) <==> Closed(c, h))
  {
    hide Inv, StandsStill, PayloadFor;
  }

  /** Another handoff of the player is open at the source and not too old. */
  predicate OtherLive(c: Cell, h: Handover, now: nat) {
    exists t <- c.preparedByTk :: t != h.token && HasOpenRecord(c, h.player, t) && now - c.preparedByTk[t].createdAt <= STALE_AFTER
  }

  /** This Prepare opens a record of its own. */
  predicate Renews(c: Cell, h: Handover, now: nat) {
    h.token !in Prune(c, now).preparedByTk && Prepare(c, h.player, h.target, h.token, now).1.ok
  }

  function SnapAfter(c: Cell, h: Handover, now: nat, snap: Option<Snap>): Option<Snap> {
    if Renews(c, h, now) then Some(Snap(if snap.Some? then snap.value.number + 1 else 1, c, now)) else snap
  }

  lemma PruneSpares(c: Cell, now: nat, h: Handover)
    requires Inv(c) && Owned(c, h)
    ensures Inv(Prune(c, now)) && Spared(c, Prune(c, now), h)
  {
    PruneKeeps(c, now);
    hide Inv, Prune;
    MotionStands(c, Prune(c, now), h);
  }

  /** After pruning, the player is frozen exactly by an open record that is not too old. */
  lemma FrozenMeansOpen(c: Cell, pid: string, now: nat)
    requires Inv(c)
    ensures pid in Prune(c, now).frozen <==>
              exists t <- c.preparedByTk :: HasOpenRecord(c, pid, t) && now - c.preparedByTk[t].createdAt <= STALE_AFTER
  {
    PruneKeeps(c, now);
    var b := Prune(c, now);
    if pid in b.frozen {
      FrozenIsRegistered(b, pid);
      var t := b.preparedByID[pid];
      assert t in c.preparedByTk && HasOpenRecord(c, pid, t);
    }
    hide Prune, Inv;
    forall t | t in c.preparedByTk && HasOpenRecord(c, pid, t) && now - c.preparedByTk[t].createdAt <= STALE_AFTER
      ensures pid in b.frozen
    {
      OpenIsFrozen(b, pid, t);
    }
  }

  /** While the token's record is there, no other handoff of the player is open. */
  lemma RecordIsOnly(c: Cell, h: Handover, e0: Entity, t: string)
    requires Inv(c) && Owned(c, h) && Whereabouts(c, h, e0) && h.token in c.preparedByTk && t != h.token
    ensures !HasOpenRecord(c, h.player, t)
  {
    if HasOpenRecord(c, h.player, t) {
      OpenIsFrozen(c, h.player, t);
      if Open(c, h) {
        OpenIsFrozen(c, h.player, h.token);
      }
    }
  }

  lemma PrepareStep(c: Cell, h: Handover, e0: Entity, snap: Option<Snap>, now: nat)
    requires Named(h) && SourceOk(c, h, e0, snap) && now > 0
    ensures var (d, reply) := Prepare(c, h.player, h.target, h.token, now); var last := SnapAfter(c, h, now, snap);
            SourceOk(d, h, e0, last) && (Closed(d, h) <==> Closed(c, h)) && d.playerByID == c.playerByID &&
            (reply.ok <==> !OtherLive(c, h, now)) &&
            (reply.ok ==>
               (h.token in d.preparedByTk && last.Some? && e0 in last.value.cell.world.positions &&
                reply.payload == Some(PayloadFor(last.value.cell, h.player, e0, h.target, h.token)) &&
                (now - last.value.since <= STALE_AFTER || Closed(c, h))))
  {
    hide Inv, Prune, Prepare, PayloadFor, StandsStill;
    var b := Prune(c, now);
    PruneKeeps(c, now);
    PruneSpares(c, now, h);
    SparedKeepsSource(c, b, h, e0, snap);
    FrozenMeansOpen(c, h.player, now);
    PrepareOf(c, h, now);
    if h.token in b.preparedByTk {
      forall t | t in c.preparedByTk && t != h.token ensures !HasOpenRecord(c, h.player, t) {
        RecordIsOnly(c, h, e0, t);
      }
    } else {
      assert !Closed(c, h) && h.player in b.playerByID && b.playerByID[h.player] == e0;
      assert h.player in b.frozen <==> OtherLive(c, h, now);
      if h.player !in b.frozen {
        PlayerIsAlive(c, h.player);
        PrepareKeeps(c, h.player, h.target, h.token, now);
        FrozeStands(b, h, now);
        SamePayload(c, b, h, e0);
      }
    }
  }

  /** A named Prepare: repeated, refused while another handoff is live, or fresh. */
  lemma PrepareOf(c: Cell, h: Handover, now: nat)
    requires Inv(c) && Named(h) && now > 0
    requires h.token in Prune(c, now).preparedByTk || h.player in c.playerByID
    ensures h.player in c.playerByID ==> c.playerByID[h.player] in c.world.positions
    ensures var b := Prune(c, now); b.playerByID == c.playerByID && b.world == c.world && b.loop == c.loop && b.id == c.id
    ensures var b := Prune(c, now);
            Prepare(c, h.player, h.target, h.token, now) ==
            if h.token in b.preparedByTk then (b, PrepareReply(true, AlreadyPrepared, Some(b.preparedByTk[h.token].payload)))
            else if h.player in b.frozen then (b, PrepareReply(false, InProgress, None))
            else (Froze(b, h.player, h.target, h.token, now),
                  PrepareReply(true, PreparedNow, Some(PayloadFor(b, h.player, b.playerByID[h.player], h.target, h.token))))
  {
    PruneKeeps(c, now);
    if h.token !in Prune(c, now).preparedByTk {
      FreshCases(Prune(c, now), h.player, h.target, h.token, now);
    }
    hide Prune, PrepareFresh, PayloadFor, Froze;
  }

  lemma FrozeStands(b: Cell, h: Handover, now: nat)
    requires h.player in b.playerByID && b.playerByID[h.player] in b.world.positions
    ensures var d := Froze(b, h.player, h.target, h.token, now);
            StandsStill(d, h.player, b.world.positions[b.playerByID[h.player]]) && d.playerByID == b.playerByID &&
            OpenAt(d, h.player, h.token, now, PayloadFor(b, h.player, b.playerByID[h.player], h.target, h.token))
  {
    hide PayloadFor;
  }

  lemma SamePayload(c: Cell, b: Cell, h: Handover, e: Entity)
    requires b.world == c.world && b.loop == c.loop && b.id == c.id && e in c.world.positions
    ensures PayloadFor(b, h.player, e, h.target, h.token) == PayloadFor(c, h.player, e, h.target, h.token)
  {
  }

  lemma FinalizeStep(d: Cell, h: Handover, e0: Entity, snap: Option<Snap>)
    requires Named(h) && SourceOk(d, h, e0, snap) && h.token in d.preparedByTk
    ensures var (f, fin) := Finalize(d, h.player, h.token);
            fin.ok && SourceOk(f, h, e0, snap) && Closed(f, h) && f.playerByID == d.playerByID - {h.player}
  {
    hide Inv, Finalize, PayloadFor, StandsStill;
    if Closed(d, h) {
      FinalizeRepeats(d, h.player, h.token);
    } else {
      FinalizeOpen(d, h.player, h.token);
      PlayerIsAlive(d, h.player);
    }
  }

  // ---------------------------------------------------------------- the target between calls

  predicate Taken(c: Cell, h: Handover) {
    h.token in c.acceptedByTk
  }

  /** Once the token is accepted, the player is registered as the entity it named. */
  ghost predicate TargetOk(c: Cell, h: Handover) {
    Inv(c) && (Taken(c, h) ==> h.player in c.playerByID && c.playerByID[h.player] == c.acceptedByTk[h.token])
  }

  /** The same registration and the same answer to the token. */
  predicate SameArrival(c: Cell, d: Cell, h: Handover) {
    (h.player in d.playerByID <==> h.player in c.playerByID) &&
    (h.player in c.playerByID ==> d.playerByID[h.player] == c.playerByID[h.player]) &&
    (Taken(d, h) <==> Taken(c, h)) && (Taken(c, h) ==> d.acceptedByTk[h.token] == c.acceptedByTk[h.token])
  }

  lemma CallSparesArrival(c: Cell, call: Call, h: Handover)
    requires AtTarget(h, call)
    ensures SameArrival(c, Do(c, call), h)
  {
    hide PayloadFor, Prepare, WorldState.Destroy, WorldState.Moved, WorldState.Regenerated;
    if call.Prepares? {
      PrepareKeepsTables(c, call.player, call.target, call.token, call.now);
    }
  }

  lemma PrepareKeepsTables(c: Cell, p: string, target: string, tok: string, now: nat)
    ensures Prepare(c, p, target, tok, now).0.playerByID == c.playerByID
    ensures Prepare(c, p, target, tok, now).0.acceptedByTk == c.acceptedByTk
  {
    hide PayloadFor, StalePlayers;
  }

  lemma CallKeepsInv(c: Cell, call: Call)
    requires Inv(c) && HasIds(c, call) && (call.Prepares? ==> call.now > 0)
    ensures Inv(Do(c, call))
  {
    hide Inv, Tick, ApplyInput, Join, Leave, Prepare, Accept, Finalize;
    match call
    case Ticks => if c.loop.tps > 0.0 { TickKeeps(c); }
    case Moves(p, v) => InputKeeps(c, p, v);
    case Joins(p) => JoinKeeps(c, p);
    case Leaves(p) => LeaveKeeps(c, p);
    case Prepares(p, target, t, now) => PrepareKeeps(c, p, target, t, now);
    case Accepts(p) => AcceptKeeps(c, p);
    case Finalizes(p, t) => FinalizeKeeps(c, p, t);
    case Drains(on) => DrainSpares(c, on, Handover("", "", "", ""));
  }

  lemma CallSparesTarget(c: Cell, call: Call, h: Handover)
    requires TargetOk(c, h) && AtTarget(h, call) && HasIds(c, call)
    ensures TargetOk(Do(c, call), h) && SameArrival(c, Do(c, call), h)
  {
    CallSparesArrival(c, call, h);
    CallKeepsInv(c, call);
    hide Inv, Do;
  }

  predicate RoomToArrive(c: Cell, h: Handover) {
    Taken(c, h) || h.player in c.playerByID || c.world.HasRoom()
  }

  lemma AcceptStep(t: Cell, h: Handover, p: Payload)
    requires Named(h) && TargetOk(t, h) && RoomToArrive(t, h) && p.playerID == h.player && p.token == h.token
    ensures var (g, acc) := Accept(t, p);
            TargetOk(g, h) && Taken(g, h) && acc.ok && acc.entity != 0 && acc.entity == g.acceptedByTk[h.token] &&
            g.playerByID == t.playerByID[h.player := acc.entity] &&
            (Taken(t, h) ==> g == t) && (!Taken(t, h) ==> ArrivedAs(g.world, acc.entity, p))
  {
    if Taken(t, h) {
      AcceptRepeats(t, p);
      hide Inv, Accept;
      assert t.playerByID == t.playerByID[h.player := t.acceptedByTk[h.token]];
      NamedArrival(t, h.token);
    } else {
      hide Inv, Accept;
      AcceptFirst(t, p);
    }
  }

  lemma NamedArrival(c: Cell, tok: string)
    requires Inv(c) && tok in c.acceptedByTk
    ensures c.acceptedByTk[tok] != 0
  {
  }

  // ---------------------------------------------------------------- the frozen player stands still

  function DoAll(c: Cell, calls: seq<Call>): Cell
    decreases |calls|
  {
    if calls == [] then c else DoAll(Do(c, calls[0]), calls[1..])
  }

  /** Calls that leave the handover alone, none of them preparing anything after its limit. */
  predicate Undisturbed(c: Cell, h: Handover, calls: seq<Call>)
    decreases |calls|
  {
    calls != [] ==>
      AtSource(h, calls[0]) && HasIds(c, calls[0]) && InTime(c, calls[0], h) && Undisturbed(Do(c, calls[0]), h, calls[1..])
  }

  /** While frozen, no number of steps, inputs, whoever's, and calls of other
      players and drivers within the limit moves the player or touches the record. */
  lemma {:induction false} FrozenStaysPut(c: Cell, h: Handover, at: Position, calls: seq<Call>)
    requires Inv(c) && Open(c, h) && StandsStill(c, h.player, at) && Undisturbed(c, h, calls)
    ensures var d := DoAll(c, calls);
            Inv(d) && Open(d, h) && StandsStill(d, h.player, at) && d.preparedByTk[h.token] == c.preparedByTk[h.token] &&
            h.player in c.playerByID && d.playerByID[h.player] == c.playerByID[h.player]
    decreases |calls|
  {
    hide Inv, Do, AtSource, HasIds, InTime, StandsStill;
    OpenIsFrozen(c, h.player, h.token);
    if calls != [] {
      CallSpares(c, calls[0], h);
      FrozenStaysPut(Do(c, calls[0]), h, at, calls[1..]);
    }
  }
}
