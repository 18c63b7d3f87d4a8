/** What every call keeps about one cell. */
module CellInvariant {
  import opened Text
  import opened Ecs
  import opened CellState

  /** `players` is exactly the image of `playerByID`, and no two players share an entity. */
  ghost predicate PlayersMirrored(c: Cell) {
    c.players == c.playerByID.Values &&
    "" !in c.playerByID &&
    forall p, q :: p in c.playerByID && q in c.playerByID && c.playerByID[p] == c.playerByID[q] ==> p == q
  }

  /** Every registered player has a living, positioned entity. */
  ghost predicate EntitiesPresent(c: Cell) {
    c.world.IdsBelowCounter() &&
    forall p <- c.playerByID :: c.playerByID[p] in c.world.alive && c.playerByID[p] in c.world.positions
  }

  /** The frozen players are those with an active token; an active token has an
      open record of its player; an open record is its player's active token, and
      its entity is the player's. */
  ghost predicate HandoffsLinked(c: Cell) {
    c.frozen == c.preparedByID.Keys &&
    (forall p <- c.preparedByID :: HasOpenRecord(c, p, c.preparedByID[p])) &&
    (forall tok <- c.preparedByTk :: RecordLinked(c, tok))
  }

  predicate HasOpenRecord(c: Cell, p: string, tok: string) {
    tok in c.preparedByTk && !c.preparedByTk[tok].finalized && c.preparedByTk[tok].playerID == p
  }

  ghost predicate RecordLinked(c: Cell, tok: string)
    requires tok in c.preparedByTk
  {
    var r := c.preparedByTk[tok];
    tok != "" && r.token == tok && r.createdAt > 0 &&
    r.payload.playerID == r.playerID && r.payload.token == tok && r.playerID != "" &&
    (!r.finalized ==>
       r.playerID in c.preparedByID && c.preparedByID[r.playerID] == tok &&
       r.playerID in c.playerByID && c.playerByID[r.playerID] == r.entity)
  }

  ghost predicate ArrivalsNamed(c: Cell) {
    forall tok <- c.acceptedByTk :: c.acceptedByTk[tok] != 0
  }

  ghost predicate Inv(c: Cell) {
    PlayersMirrored(c) && EntitiesPresent(c) && HandoffsLinked(c) && ArrivalsNamed(c)
  }

  lemma EmptyCellInv(id: string)
    ensures Inv(EmptyCell(id))
  {
  }

  /** The handoff tables stay linked as long as they and the registrations they speak of stay. */
  lemma LinksCarry(c: Cell, d: Cell)
    requires HandoffsLinked(c) && d.frozen == c.frozen && d.preparedByID == c.preparedByID && d.preparedByTk == c.preparedByTk
    requires forall p <- c.playerByID :: p in d.playerByID && d.playerByID[p] == c.playerByID[p]
    ensures HandoffsLinked(d)
  {
    forall tok | tok in d.preparedByTk ensures RecordLinked(d, tok) {
      assert RecordLinked(c, tok);
    }
    forall p | p in d.preparedByID ensures HasOpenRecord(d, p, d.preparedByID[p]) {
      assert HasOpenRecord(c, p, c.preparedByID[p]);
    }
  }

  /** Joining keeps the invariant while ids last. */
  lemma JoinKeeps(c: Cell, pid: string)
    requires Inv(c) && (c.world.HasRoom() || pid in c.playerByID)
    ensures Inv(Join(c, pid).0)
    ensures Join(c, pid).1.ok ==> pid in Join(c, pid).0.playerByID
  {
    var d := Join(c, pid).0;
    if d != c {
      CreateIsFresh(c.world);
      LinksCarry(c, d);
      hide HandoffsLinked;
      assert d.playerByID.Values == c.playerByID.Values + {c.world.Created()} by {
        assert forall p <- c.playerByID :: d.playerByID[p] == c.playerByID[p];
        assert d.playerByID[pid] == c.world.Created();
      }
    }
  }

  lemma LeaveKeeps(c: Cell, pid: string)
    requires Inv(c)
    ensures Inv(Leave(c, pid).0)
    ensures pid !in Leave(c, pid).0.playerByID
    ensures pid !in Leave(c, pid).0.frozen
  {
    if pid != "" {
      var d := Leave(c, pid).0;
      assert PlayersMirrored(d) by {
        ValuesWithout(c.playerByID, pid);
      }
      LeaveKeepsEntities(c, pid);
      LeaveKeepsHandoffs(c, pid);
    } else {
      forall p | p in c.frozen ensures p != "" {
        FrozenIsRegistered(c, p);
      }
    }
  }

  lemma FrozenIsRegistered(c: Cell, p: string)
    requires HandoffsLinked(c) && p in c.frozen
    ensures p in c.playerByID && p != "" && HasOpenRecord(c, p, c.preparedByID[p])
  {
    assert HasOpenRecord(c, p, c.preparedByID[p]);
    assert RecordLinked(c, c.preparedByID[p]);
  }

  lemma LeaveKeepsEntities(c: Cell, pid: string)
    requires PlayersMirrored(c) && EntitiesPresent(c) && pid != ""
    ensures EntitiesPresent(Leave(c, pid).0)
  {
    var d := Leave(c, pid).0;
    forall p | p in d.playerByID
      ensures d.playerByID[p] in d.world.alive && d.playerByID[p] in d.world.positions
    {
      assert p in c.playerByID;
    }
  }

  lemma LeaveKeepsHandoffs(c: Cell, pid: string)
    requires HandoffsLinked(c) && pid != ""
    ensures HandoffsLinked(Leave(c, pid).0)
  {
    var d := Leave(c, pid).0;
    forall p | p in d.preparedByID ensures HasOpenRecord(d, p, d.preparedByID[p]) {
      assert HasOpenRecord(c, p, c.preparedByID[p]);
      if pid in c.preparedByID {
        assert HasOpenRecord(c, pid, c.preparedByID[pid]);
      }
    }
    forall tok | tok in d.preparedByTk ensures RecordLinked(d, tok) {
      assert RecordLinked(c, tok);
    }
  }

  /** Removing one key of an injective map removes exactly its value. */
  lemma ValuesWithout<K, V>(m: map<K, V>, k: K)
    requires forall p, q :: p in m && q in m && m[p] == m[q] ==> p == q
    ensures k in m ==> (m - {k}).Values == m.Values - {m[k]}
    ensures k !in m ==> m - {k} == m
  {
    if k in m {
      var r := m - {k};
      forall v ensures v in r.Values <==> v in m.Values && v != m[k] {
        if v in r.Values {
          var p :| p in r && r[p] == v;
          assert p in m && m[p] == v;
        }
        if v in m.Values && v != m[k] {
          var p :| p in m && m[p] == v;
          assert p in r && r[p] == v;
        }
      }
    }
  }

  /** At call granularity a registered player's entity is never gone. */
  lemma InputKeeps(c: Cell, pid: string, v: Velocity)
    requires Inv(c)
    ensures Inv(ApplyInput(c, pid, v).0)
    ensures ApplyInput(c, pid, v).1.message != EntityGone
    ensures ApplyInput(c, pid, v).1.ok <==> pid in c.playerByID && pid !in c.frozen
  {
    InputSetsVelocity(c, pid, v);
    hide ApplyInput;
    LinksCarry(c, ApplyInput(c, pid, v).0);
    hide HandoffsLinked;
  }

  lemma InputSetsVelocity(c: Cell, pid: string, v: Velocity)
    requires EntitiesPresent(c) && PlayersMirrored(c)
    ensures var (d, reply) := ApplyInput(c, pid, v);
            d == c.(world := d.world) && d.world == c.world.(velocities := d.world.velocities) &&
            reply.message != EntityGone && (reply.ok <==> pid in c.playerByID && pid !in c.frozen)
  {
  }

  /** Pruning only ever unfreezes: it removes exactly the handoffs older than the limit. */
  lemma PruneKeeps(c: Cell, now: nat)
    requires Inv(c)
    ensures Inv(Prune(c, now))
    ensures Prune(c, now).playerByID == c.playerByID && Prune(c, now).world == c.world
    ensures forall tok :: tok in Prune(c, now).preparedByTk <==>
              tok in c.preparedByTk &&
              (c.preparedByTk[tok].finalized || now - c.preparedByTk[tok].createdAt <= STALE_AFTER)
    ensures forall tok <- Prune(c, now).preparedByTk :: Prune(c, now).preparedByTk[tok] == c.preparedByTk[tok]
  {
    var d := Prune(c, now);
    forall tok | tok in c.preparedByTk
      ensures RecordLinked(c, tok)
      ensures tok in d.preparedByTk <==>
        c.preparedByTk[tok].finalized || now - c.preparedByTk[tok].createdAt <= STALE_AFTER
    {
      var r := c.preparedByTk[tok];
      if !r.finalized && now - r.createdAt > STALE_AFTER {
        assert r.playerID in StalePlayers(c, now);
      }
      if tok !in d.preparedByTk {
        var p :| p in StalePlayers(c, now) && c.preparedByID[p] == tok;
        assert HasOpenRecord(c, p, tok);
      }
    }
    forall p | p in d.preparedByID ensures HasOpenRecord(d, p, d.preparedByID[p]) {
      assert HasOpenRecord(c, p, c.preparedByID[p]);
    }
    forall tok | tok in d.preparedByTk ensures RecordLinked(d, tok) {
      assert RecordLinked(c, tok);
      var r := c.preparedByTk[tok];
      if !r.finalized {
        assert HasOpenRecord(c, r.playerID, tok);
      }
    }
  }

  /** Preparing keeps the invariant and never finds the entity gone; it succeeds
      exactly for a repeated token or a registered player with no other open handoff. */
  lemma PrepareKeeps(c: Cell, pid: string, target: string, tok: string, now: nat)
    requires Inv(c) && now > 0
    ensures Inv(Prepare(c, pid, target, tok, now).0)
    ensures Prepare(c, pid, target, tok, now).1.message != EntityGone
    ensures Prepare(c, pid, target, tok, now).1.ok <==>
              pid != "" && target != "" && tok != "" &&
              (tok in Prune(c, now).preparedByTk ||
               (pid in c.playerByID && pid !in Prune(c, now).frozen))
    ensures Prepare(c, pid, target, tok, now).1.ok <==> Prepare(c, pid, target, tok, now).1.payload.Some?
  {
    if pid != "" && target != "" && tok != "" {
      PruneKeeps(c, now);
      var b := Prune(c, now);
      if tok !in b.preparedByTk {
        PrepareFreshKeeps(b, pid, target, tok, now);
      }
    }
  }

  lemma PrepareFreshKeeps(c: Cell, pid: string, target: string, tok: string, now: nat)
    requires Inv(c) && now > 0 && pid != "" && tok != "" && tok !in c.preparedByTk
    requires forall t <- c.preparedByTk :: c.preparedByTk[t].finalized || now - c.preparedByTk[t].createdAt <= STALE_AFTER
    ensures Inv(PrepareFresh(c, pid, target, tok, now).0)
    ensures PrepareFresh(c, pid, target, tok, now).1.message != EntityGone
    ensures PrepareFresh(c, pid, target, tok, now).1.ok <==> pid in c.playerByID && pid !in c.frozen
    ensures PrepareFresh(c, pid, target, tok, now).1.ok <==> PrepareFresh(c, pid, target, tok, now).1.payload.Some?
  {
    FreshCases(c, pid, target, tok, now);
    hide PrepareFresh, HandoffsLinked, PlayersMirrored;
    if pid in c.playerByID && pid !in c.frozen {
      FrozeLinks(c, pid, target, tok, now);
      FrozeMirrors(c, pid, target, tok, now);
    }
  }

  /** The cell after freezing the player for a new handoff. */
  function Froze(c: Cell, pid: string, target: string, tok: string, now: nat): Cell
    requires pid in c.playerByID && c.playerByID[pid] in c.world.positions
  {
    var e := c.playerByID[pid];
    c.(preparedByID := c.preparedByID[pid := tok],
       frozen := c.frozen + {pid},
       preparedByTk := c.preparedByTk[tok := Prepared(pid, tok, e, false, now, PayloadFor(c, pid, e, target, tok))],
       world := c.world.SetVelocity(e, STILL))
  }

  lemma FreshCases(c: Cell, pid: string, target: string, tok: string, now: nat)
    requires Inv(c) && tok !in c.preparedByTk
    requires forall t <- c.preparedByTk :: c.preparedByTk[t].finalized || now - c.preparedByTk[t].createdAt <= STALE_AFTER
    ensures pid in c.playerByID ==> c.playerByID[pid] in c.world.positions
    ensures pid in c.frozen ==> pid in c.playerByID
    ensures PrepareFresh(c, pid, target, tok, now) ==
            if pid in c.frozen then (c, PrepareReply(false, InProgress, None))
            else if pid !in c.playerByID then (c, PrepareReply(false, UnknownPlayer, None))
            else (Froze(c, pid, target, tok, now),
                  PrepareReply(true, PreparedNow, Some(PayloadFor(c, pid, c.playerByID[pid], target, tok))))
  {
    hide PayloadFor;
    if pid in c.preparedByID {
      assert HasOpenRecord(c, pid, c.preparedByID[pid]);
      assert RecordLinked(c, c.preparedByID[pid]);
    }
  }

  lemma FrozeMirrors(c: Cell, pid: string, target: string, tok: string, now: nat)
    requires pid in c.playerByID && c.playerByID[pid] in c.world.positions && PlayersMirrored(c)
    ensures PlayersMirrored(Froze(c, pid, target, tok, now))
  {
    hide PayloadFor;
  }

  lemma FrozeLinks(c: Cell, pid: string, target: string, tok: string, now: nat)
    requires HandoffsLinked(c) && now > 0 && pid != "" && tok != "" && tok !in c.preparedByTk
    requires pid in c.playerByID && c.playerByID[pid] in c.world.positions && pid !in c.frozen
    ensures HandoffsLinked(Froze(c, pid, target, tok, now))
  {
    var d := Froze(c, pid, target, tok, now);
    forall p | p in d.preparedByID ensures HasOpenRecord(d, p, d.preparedByID[p]) {
      if p != pid {
        assert HasOpenRecord(c, p, c.preparedByID[p]);
      }
    }
    forall t | t in d.preparedByTk ensures RecordLinked(d, t) {
      if t in c.preparedByTk {
        assert RecordLinked(c, t);
      }
    }
  }

  /** Accepting keeps the invariant while ids last and leaves the player registered. */
  lemma AcceptKeeps(c: Cell, p: Payload)
    requires Inv(c) && (c.world.HasRoom() || p.playerID in c.playerByID || p.token in c.acceptedByTk)
    ensures Inv(Accept(c, p).0)
    ensures Accept(c, p).1.ok ==> Accept(c, p).1.entity != 0 && p.token in Accept(c, p).0.acceptedByTk
  {
    var d := Accept(c, p).0;
    if d != c {
      AcceptKeepsPlayers(c, p);
      AcceptKeepsHandoffs(c, p);
      hide HandoffsLinked, PlayersMirrored, EntitiesPresent;
    }
  }

  lemma AcceptKeepsHandoffs(c: Cell, p: Payload)
    requires HandoffsLinked(c)
    ensures HandoffsLinked(Accept(c, p).0)
  {
    LinksCarry(c, Accept(c, p).0);
    hide HandoffsLinked;
  }

  lemma AcceptKeepsPlayers(c: Cell, p: Payload)
    requires PlayersMirrored(c) && EntitiesPresent(c) && Accept(c, p).0 != c
    requires c.world.HasRoom() || p.playerID in c.playerByID
    ensures PlayersMirrored(Accept(c, p).0) && EntitiesPresent(Accept(c, p).0)
    ensures Accept(c, p).1.entity != 0
  {
    var d := Accept(c, p).0;
    var e := d.playerByID[p.playerID];
    CreateIsFresh(c.world);
    if p.playerID in c.playerByID {
      assert d.playerByID == c.playerByID;
    } else {
      assert d.playerByID.Values == c.playerByID.Values + {e} by {
        assert forall q <- c.playerByID :: d.playerByID[q] == c.playerByID[q];
      }
    }
  }

  lemma FinalizeKeeps(c: Cell, pid: string, tok: string)
    requires Inv(c)
    ensures Inv(Finalize(c, pid, tok).0)
    ensures Finalize(c, pid, tok).1.message == UnknownToken ==> Finalize(c, pid, tok).0 == c
    ensures Finalize(c, pid, tok).1.message == Finalized ==> pid in c.playerByID && pid in c.frozen
  {
    if pid in c.preparedByID {
      assert HasOpenRecord(c, pid, c.preparedByID[pid]);
    }
    if tok in c.preparedByTk {
      assert RecordLinked(c, tok);
    }
    var d := Finalize(c, pid, tok).0;
    if d != c {
      ValuesWithout(c.playerByID, pid);
      forall t | t in d.preparedByTk ensures RecordLinked(d, t) {
        assert RecordLinked(c, t);
      }
      forall p | p in d.preparedByID ensures HasOpenRecord(d, p, d.preparedByID[p]) {
        assert HasOpenRecord(c, p, c.preparedByID[p]);
      }
    }
  }

  lemma TickKeeps(c: Cell)
    requires Inv(c) && c.loop.tps > 0.0
    ensures Inv(Tick(c))
  {
    LinksCarry(c, Tick(c));
    hide HandoffsLinked;
  }
}
