/** Moving the players of several cells to one, one handoff after another, as a
    merge does. */
module MergePlayers {
  import opened Text
  import opened Ecs
  import opened CellState
  import opened CellInvariant
  import Handoff
  import opened Persist

  type Cells = Handoff.Cells

  /** A player and the child cell that listed them. */
  datatype Candidate = Candidate(child: string, player: string)

  function Decimal(n: nat): string {
    var digit := ['0' + (n % 10) as char];
    if n < 10 then digit else Decimal(n / 10) + digit
  }

  /** The token of the handoff started at `now`; the driver trims it like every request field. */
  function TokenFor(c: Candidate, now: nat): string {
    TrimSpace("merge:" + c.child + ":" + c.player + ":" + Decimal(now))
  }

  /** The handoffs in order, up to the first that does not complete. `clock`
      gives each one its time, `reach` how far its calls get. */
  function Move(cells: Cells, parent: string, todo: seq<Candidate>, clock: nat -> nat,
                reach: nat -> Handoff.Reach): (Cells, bool)
    decreases |todo|
  {
    if todo == [] then (cells, true)
    else
      var n := |todo| - 1;
      var (before, ok) := Move(cells, parent, todo[..n], clock, reach);
      if !ok then (before, false)
      else
        var (after, outcome) := MoveOne(before, parent, todo[n], clock(n), reach(n));
        (after, outcome.Done?)
  }

  function MoveOne(cells: Cells, parent: string, c: Candidate, now: nat, reach: Handoff.Reach): (Cells, Handoff.Outcome) {
    Handoff.Drive(cells, c.child, parent, c.player, TokenFor(c, now), now, reach)
  }

  // ---------------------------------------------------------------- the effect of one handoff on the tables

  predicate TokenFresh(cells: Cells, tok: string) {
    forall id <- cells :: tok !in cells[id].preparedByTk && tok !in cells[id].acceptedByTk
  }

  ghost predicate PrepareLeaves(c: Cell, d: Cell, reply: PrepareReply, pid: string, tok: string) {
    d.playerByID == c.playerByID && d.acceptedByTk == c.acceptedByTk &&
    (forall t <- d.preparedByTk :: t in c.preparedByTk || t == tok) &&
    (reply.ok && tok !in c.preparedByTk ==>
       tok != "" && pid in c.playerByID && tok in d.preparedByTk &&
       d.preparedByTk[tok].playerID == pid && !d.preparedByTk[tok].finalized)
  }

  lemma FreshLeaves(c: Cell, pid: string, target: string, tok: string, now: nat)
    requires tok !in c.preparedByTk && tok != ""
    ensures PrepareLeaves(c, PrepareFresh(c, pid, target, tok, now).0, PrepareFresh(c, pid, target, tok, now).1, pid, tok)
  {
    hide PayloadFor;
  }

  lemma PrepareEffect(c: Cell, pid: string, target: string, tok: string, now: nat)
    ensures PrepareLeaves(c, Prepare(c, pid, target, tok, now).0, Prepare(c, pid, target, tok, now).1, pid, tok)
  {
    hide PrepareFresh, StalePlayers;
    if tok !in Prune(c, now).preparedByTk && tok != "" {
      FreshLeaves(Prune(c, now), pid, target, tok, now);
    }
  }

  lemma AcceptEffect(c: Cell, p: Payload)
    ensures var (d, reply) := Accept(c, p);
            d.preparedByTk == c.preparedByTk && (forall t <- d.acceptedByTk :: t in c.acceptedByTk || t == p.token) &&
            (d.playerByID == c.playerByID || d.playerByID == c.playerByID[p.playerID := reply.entity]) &&
            (reply.ok && p.token !in c.acceptedByTk ==> p.playerID in d.playerByID)
  {
  }

  lemma PrepareNames(c: Cell, pid: string, target: string, tok: string, now: nat)
    ensures var (d, reply) := Prepare(c, pid, target, tok, now);
            reply.ok && tok !in c.preparedByTk && reply.payload.Some? ==> reply.payload.value.playerID == pid
  {
  }

  lemma FinalizeEffect(c: Cell, pid: string, tok: string)
    ensures var (d, reply) := Finalize(c, pid, tok);
            d.acceptedByTk == c.acceptedByTk && d.preparedByTk.Keys == c.preparedByTk.Keys &&
            (d.playerByID == c.playerByID || d.playerByID == c.playerByID - {pid}) &&
            (reply.ok && tok in c.preparedByTk && !c.preparedByTk[tok].finalized ==> d.playerByID == c.playerByID - {pid})
  {
  }

  /** A player registered in the target or the source before is registered in one
      of them after, and after a completed handoff in the target and not in the source. */
  ghost predicate Relocated(before: Cells, after: Cells, source: string, target: string, pid: string, done: bool) {
    after.Keys == before.Keys && source in before && target in before && source != target &&
    (forall id <- before :: id != source && id != target ==> after[id] == before[id]) &&
    (forall p :: p != pid ==> (p in after[source].playerByID <==> p in before[source].playerByID)) &&
    (forall p :: p != pid ==> (p in after[target].playerByID <==> p in before[target].playerByID)) &&
    (pid in before[source].playerByID || pid in before[target].playerByID ==>
       pid in after[source].playerByID || pid in after[target].playerByID) &&
    (pid in before[target].playerByID ==> pid in after[target].playerByID) &&
    (pid in after[source].playerByID ==> pid in before[source].playerByID) &&
    (pid in after[target].playerByID ==> pid in before[source].playerByID || pid in before[target].playerByID) &&
    (done ==> pid in after[target].playerByID && pid !in after[source].playerByID)
  }

  /** The two cells after a handoff, `s` at the source and `t` at the target. */
  lemma RelocatedBy(cells: Cells, source: string, target: string, pid: string, done: bool, s: Cell, t: Cell)
    requires source in cells && target in cells && source != target
    requires s.playerByID == cells[source].playerByID || s.playerByID == cells[source].playerByID - {pid}
    requires t.playerByID.Keys == cells[target].playerByID.Keys || t.playerByID.Keys == cells[target].playerByID.Keys + {pid}
    requires pid in cells[source].playerByID && pid !in s.playerByID ==> pid in t.playerByID
    requires pid in t.playerByID ==> pid in cells[source].playerByID || pid in cells[target].playerByID
    requires done ==> pid in t.playerByID && pid !in s.playerByID
    ensures Relocated(cells, cells[source := s][target := t], source, target, pid, done)
  {
  }

  lemma StillFresh(cells: Cells, source: string, target: string, tok: string, s: Cell, t: Cell)
    requires source in cells && target in cells && source != target
    requires (forall k <- s.preparedByTk :: k in cells[source].preparedByTk || k == tok) && s.acceptedByTk == cells[source].acceptedByTk
    requires t.preparedByTk == cells[target].preparedByTk && (forall k <- t.acceptedByTk :: k in cells[target].acceptedByTk || k == tok)
    ensures forall k :: k != tok && TokenFresh(cells, k) ==> TokenFresh(cells[source := s][target := t], k)
  {
  }

  /** Every handoff under a fresh token relocates its player or leaves them where they were. */
  lemma OneHandoff(cells: Cells, source: string, target: string, pid: string, tok: string, now: nat, reach: Handoff.Reach)
    requires source in cells && target in cells && source != target && TokenFresh(cells, tok)
    ensures var (after, outcome) := Handoff.Drive(cells, source, target, pid, tok, now, reach);
            Relocated(cells, after, source, target, pid, outcome.Done?) &&
            forall t :: t != tok && TokenFresh(cells, t) ==> TokenFresh(after, t)
  {
    var c, g := cells[source], cells[target];
    assert tok !in c.preparedByTk && tok !in g.acceptedByTk;
    PrepareEffect(c, pid, target, tok, now);
    PrepareNames(c, pid, target, tok, now);
    hide Prepare, Accept, Finalize, Relocated, TokenFresh;
    var (d, prep) := Prepare(c, pid, target, tok, now);
    var s, t, done := c, g, false;
    var (after, outcome) := Handoff.Drive(cells, source, target, pid, tok, now, reach);
    if source != "" && target != "" && pid != "" && tok != "" && !reach.Nowhere? {
      s := d;
      if prep.ok && prep.payload.Some? && !reach.Prepared? {
        var p := Handoff.Readdressed(prep.payload.value, source, target, tok);
        AcceptEffect(g, p);
        t := Accept(g, p).0;
        if Accept(g, p).1.ok && Accept(g, p).1.entity != 0 && !reach.Accepted? {
          FinalizeEffect(d, pid, tok);
          s, done := Finalize(d, pid, tok).0, Finalize(d, pid, tok).1.ok;
        }
      }
    }
    assert done == outcome.Done?;
    assert after == cells[source := s][target := t];
    hide Handoff.Drive;
    RelocatedBy(cells, source, target, pid, done, s, t);
    StillFresh(cells, source, target, tok, s, t);
  }

  // ---------------------------------------------------------------- the whole loop

  /** The tokens of the handoffs are new to every cell and differ from each other. */
  ghost predicate FreshTokens(cells: Cells, todo: seq<Candidate>, clock: nat -> nat) {
    (forall i: nat :: i < |todo| ==> TokenFresh(cells, TokenFor(todo[i], clock(i)))) &&
    (forall i: nat, j: nat :: i < j < |todo| ==> TokenFor(todo[i], clock(i)) != TokenFor(todo[j], clock(j)))
  }

  ghost predicate FromChildren(cells: Cells, parent: string, kids: set<string>, todo: seq<Candidate>) {
    parent in cells && parent !in kids && kids <= cells.Keys && forall c <- todo :: c.child in kids
  }

  /** Everyone registered in the parent or in one of the children. */
  function Family(cells: Cells, parent: string, kids: set<string>): set<string> {
    set id, p | id in cells && (id == parent || id in kids) && p in cells[id].playerByID :: p
  }

  /** However the handoffs go, wherever they stop: after each of them the players
      of parent and children together are the same as before the first, no cell
      outside the family changes, and no child gains a player. */
  lemma {:induction false} MergeKeepsPlayers(cells: Cells, parent: string, kids: set<string>, todo: seq<Candidate>,
                                             clock: nat -> nat, reach: nat -> Handoff.Reach)
    requires FromChildren(cells, parent, kids, todo) && FreshTokens(cells, todo, clock)
    ensures var after := Move(cells, parent, todo, clock, reach).0;
            after.Keys == cells.Keys &&
            (forall id <- cells :: id != parent && id !in kids ==> after[id] == cells[id]) &&
            Family(after, parent, kids) == Family(cells, parent, kids) &&
            (forall id <- kids :: after[id].playerByID.Keys <= cells[id].playerByID.Keys) &&
            cells[parent].playerByID.Keys <= after[parent].playerByID.Keys
    ensures forall t :: TokenFresh(cells, t) && (forall i: nat :: i < |todo| ==> t != TokenFor(todo[i], clock(i))) ==>
              TokenFresh(Move(cells, parent, todo, clock, reach).0, t)
    decreases |todo|
  {
    if todo != [] {
      hide *;
      var n := |todo| - 1;
      PrefixIsFine(cells, parent, kids, todo, clock);
      MergeKeepsPlayers(cells, parent, kids, todo[..n], clock, reach);
      MoveUnfolds(cells, parent, todo, clock, reach);
      var (before, ok) := Move(cells, parent, todo[..n], clock, reach);
      if ok {
        var c, tok := todo[n], TokenFor(todo[n], clock(n));
        assert parent in before && c.child in before && c.child != parent by { Apart(cells, parent, kids, todo); }
        OneHandoff(before, c.child, parent, c.player, tok, clock(n), reach(n));
        SameFamily(before, Move(cells, parent, todo, clock, reach).0, c.child, parent, c.player, kids);
      }
    } else {
      MoveNone(cells, parent, clock, reach);
    }
  }

  lemma MoveNone(cells: Cells, parent: string, clock: nat -> nat, reach: nat -> Handoff.Reach)
    ensures Move(cells, parent, [], clock, reach) == (cells, true)
  {
  }

  lemma MoveUnfolds(cells: Cells, parent: string, todo: seq<Candidate>, clock: nat -> nat, reach: nat -> Handoff.Reach)
    requires todo != []
    ensures var n := |todo| - 1;
            var (before, ok) := Move(cells, parent, todo[..n], clock, reach);
            var (after, outcome) := Handoff.Drive(before, todo[n].child, parent, todo[n].player, TokenFor(todo[n], clock(n)), clock(n), reach(n));
            Move(cells, parent, todo, clock, reach) == if ok then (after, outcome.Done?) else (before, false)
  {
    hide Handoff.Drive, TokenFor;
  }

  lemma Apart(cells: Cells, parent: string, kids: set<string>, todo: seq<Candidate>)
    requires FromChildren(cells, parent, kids, todo) && todo != []
    ensures parent in cells && todo[|todo| - 1].child in kids && todo[|todo| - 1].child in cells && todo[|todo| - 1].child != parent && parent !in kids
  {
    assert todo[|todo| - 1] in todo;
  }

  lemma SameFamily(before: Cells, after: Cells, child: string, parent: string, pid: string, kids: set<string>)
    requires exists done :: Relocated(before, after, child, parent, pid, done)
    requires child in kids && parent !in kids
    ensures Family(after, parent, kids) == Family(before, parent, kids)
    ensures forall id <- kids :: id in before ==> after[id].playerByID.Keys <= before[id].playerByID.Keys
    ensures before[parent].playerByID.Keys <= after[parent].playerByID.Keys
  {
  }

  /** The candidates name every player of every child. */
  ghost predicate ListsAll(cells: Cells, kids: set<string>, todo: seq<Candidate>) {
    forall id <- kids, p | id in cells && p in cells[id].playerByID :: Candidate(id, p) in todo
  }

  /** When all handoffs complete, the parent holds exactly the family's players and the children none. */
  lemma MergeEmptiesChildren(cells: Cells, parent: string, kids: set<string>, todo: seq<Candidate>,
                             clock: nat -> nat, reach: nat -> Handoff.Reach)
    requires FromChildren(cells, parent, kids, todo) && FreshTokens(cells, todo, clock) && ListsAll(cells, kids, todo)
    requires Move(cells, parent, todo, clock, reach).1
    ensures var after := Move(cells, parent, todo, clock, reach).0;
            after.Keys == cells.Keys && (forall id <- kids :: after[id].playerByID == map[]) &&
            after[parent].playerByID.Keys == Family(cells, parent, kids)
  {
    hide Move, FreshTokens;
    MergeKeepsPlayers(cells, parent, kids, todo, clock, reach);
    MovedAway(cells, parent, kids, todo, clock, reach);
    var after := Move(cells, parent, todo, clock, reach).0;
    forall id <- kids ensures after[id].playerByID == map[] {
      forall p ensures p !in after[id].playerByID {
        if p in cells[id].playerByID {
          assert Candidate(id, p) in todo;
        }
      }
    }
    forall p ensures p in after[parent].playerByID <==> p in Family(cells, parent, kids) {
      assert p in Family(after, parent, kids) <==> p in Family(cells, parent, kids);
    }
  }

  lemma PrefixIsFine(cells: Cells, parent: string, kids: set<string>, todo: seq<Candidate>, clock: nat -> nat)
    requires FromChildren(cells, parent, kids, todo) && FreshTokens(cells, todo, clock) && todo != []
    ensures FromChildren(cells, parent, kids, todo[..|todo| - 1]) && FreshTokens(cells, todo[..|todo| - 1], clock)
    ensures todo[|todo| - 1].child in kids && todo[|todo| - 1].child in cells && parent !in kids && kids <= cells.Keys
    ensures var n := |todo| - 1;
            TokenFresh(cells, TokenFor(todo[n], clock(n))) &&
            forall i: nat :: i < n ==> TokenFor(todo[n], clock(n)) != TokenFor(todo[..n][i], clock(i))
  {
    hide TokenFor, TokenFresh;
    assert forall c <- todo[..|todo| - 1] :: c in todo;
    assert todo[|todo| - 1] in todo;
  }

  /** The last handoff of a list, seen from the state the ones before it leave. */
  lemma LastHandoff(cells: Cells, parent: string, kids: set<string>, todo: seq<Candidate>, clock: nat -> nat,
                    reach: nat -> Handoff.Reach)
    requires FromChildren(cells, parent, kids, todo) && FreshTokens(cells, todo, clock) && todo != []
    requires Move(cells, parent, todo[..|todo| - 1], clock, reach).1
    ensures var n := |todo| - 1;
            var before, c := Move(cells, parent, todo[..n], clock, reach).0, todo[n];
            before.Keys == cells.Keys && TokenFresh(before, TokenFor(c, clock(n))) &&
            Relocated(before, Move(cells, parent, todo, clock, reach).0, c.child, parent, c.player, Move(cells, parent, todo, clock, reach).1)
  {
    var n := |todo| - 1;
    PrefixIsFine(cells, parent, kids, todo, clock);
    hide TokenFor, TokenFresh, Relocated;
    MergeKeepsPlayers(cells, parent, kids, todo[..n], clock, reach);
    var before, c := Move(cells, parent, todo[..n], clock, reach).0, todo[n];
    hide Handoff.Drive;
    OneHandoff(before, c.child, parent, c.player, TokenFor(c, clock(n)), clock(n), reach(n));
  }

  lemma {:induction false} MovedAway(cells: Cells, parent: string, kids: set<string>, todo: seq<Candidate>,
                                     clock: nat -> nat, reach: nat -> Handoff.Reach)
    requires FromChildren(cells, parent, kids, todo) && FreshTokens(cells, todo, clock)
    requires Move(cells, parent, todo, clock, reach).1
    ensures Move(cells, parent, todo, clock, reach).0.Keys == cells.Keys
    ensures forall c <- todo :: c.player !in Move(cells, parent, todo, clock, reach).0[c.child].playerByID
    decreases |todo|
  {
    if todo != [] {
      var n := |todo| - 1;
      hide MoveOne;
      PrefixIsFine(cells, parent, kids, todo, clock);
      MovedAway(cells, parent, kids, todo[..n], clock, reach);
      LastHandoff(cells, parent, kids, todo, clock, reach);
      hide Move, FreshTokens;
      var c, before := todo[n], Move(cells, parent, todo[..n], clock, reach).0;
      var after := Move(cells, parent, todo, clock, reach).0;
      SameFamily(before, after, c.child, parent, c.player, kids);
      forall d <- todo ensures d.player !in after[d.child].playerByID {
        if d in todo[..n] {
          assert d.player !in before[d.child].playerByID;
        } else {
          assert d == c;
        }
      }
    }
  }

  // ---------------------------------------------------------------- when the handoffs complete

  /** The player has an open handoff that is not abandoned at `now`. */
  predicate InFlight(c: Cell, pid: string, now: nat) {
    pid in c.preparedByID && !Abandoned(c, c.preparedByID[pid], now)
  }

  predicate RoomFor(c: Cell, n: nat) {
    c.world.nextID + n < ID_SPACE
  }

  lemma FrozenAfterPrune(c: Cell, pid: string, now: nat)
    requires Inv(c)
    ensures pid in Prune(c, now).frozen <==> InFlight(c, pid, now)
  {
    assert pid in StalePlayers(c, now) <==> pid in c.preparedByID && !InFlight(c, pid, now);
  }

  /** Pruning at one time makes no difference to who is in flight at a later one. */
  lemma PruneSpares(c: Cell, now: nat, q: string, later: nat)
    requires Inv(c) && now <= later
    ensures InFlight(Prune(c, now), q, later) <==> InFlight(c, q, later)
  {
    if q in c.preparedByID {
      assert HasOpenRecord(c, q, c.preparedByID[q]);
      assert RecordLinked(c, c.preparedByID[q]);
      forall p | p in c.preparedByID && c.preparedByID[p] == c.preparedByID[q] ensures p == q {
        assert HasOpenRecord(c, p, c.preparedByID[p]);
      }
    }
  }

  lemma FreshSpares(c: Cell, pid: string, target: string, tok: string, now: nat, q: string, later: nat)
    requires Inv(c) && now <= later && q != pid && tok !in c.preparedByTk
    ensures InFlight(PrepareFresh(c, pid, target, tok, now).0, q, later) <==> InFlight(c, q, later)
  {
    if q in c.preparedByID {
      assert HasOpenRecord(c, q, c.preparedByID[q]);
    }
    if pid in c.preparedByID {
      assert HasOpenRecord(c, pid, c.preparedByID[pid]);
    }
  }

  lemma PrepareSpares(c: Cell, pid: string, target: string, tok: string, now: nat, q: string, later: nat)
    requires Inv(c) && 0 < now <= later && q != pid && tok !in c.preparedByTk
    ensures InFlight(Prepare(c, pid, target, tok, now).0, q, later) <==> InFlight(c, q, later)
  {
    PruneKeeps(c, now);
    PruneSpares(c, now, q, later);
    var b := Prune(c, now);
    if tok !in b.preparedByTk {
      FreshSpares(b, pid, target, tok, now, q, later);
    }
  }

  lemma FinalizeSpares(c: Cell, pid: string, tok: string, q: string, later: nat)
    requires Inv(c) && q != pid
    ensures InFlight(Finalize(c, pid, tok).0, q, later) <==> InFlight(c, q, later)
  {
    if q in c.preparedByID {
      assert HasOpenRecord(c, q, c.preparedByID[q]);
    }
  }

  /** An uninterrupted handoff of a registered player under a fresh token
      completes exactly when the player is not in flight already; it leaves every
      other player's handoffs alone and uses at most one id of the target. */
  lemma HandoffCompletes(cells: Cells, source: string, target: string, pid: string, tok: string, now: nat)
    requires source in cells && target in cells && source != target && source != "" && target != ""
    requires TokenFresh(cells, tok) && tok != "" && pid in cells[source].playerByID && now > 0
    requires Inv(cells[source]) && Inv(cells[target]) && RoomFor(cells[target], 1)
    ensures var (after, outcome) := Handoff.Drive(cells, source, target, pid, tok, now, Handoff.Finished);
            (outcome.Done? <==> !InFlight(cells[source], pid, now)) &&
            source in after && target in after && Inv(after[source]) && Inv(after[target]) &&
            after[target].world.nextID <= cells[target].world.nextID + 1 &&
            (forall q, later: nat | q != pid && later >= now :: InFlight(after[source], q, later) <==> InFlight(cells[source], q, later))
  {
    var c, g := cells[source], cells[target];
    assert tok !in c.preparedByTk && tok !in g.acceptedByTk;
    hide *;
    PrepareForHandoff(c, pid, target, tok, now);
    var (d, prep) := Prepare(c, pid, target, tok, now);
    if prep.ok {
      var p := Handoff.Readdressed(prep.payload.value, source, target, tok);
      AcceptForHandoff(g, prep.payload.value, source, target, tok);
      FinalizeForHandoff(d, pid, tok);
      Handoff.DriveOf(cells, source, target, pid, tok, now, prep.payload.value, Accept(g, p).1.entity);
    } else {
      DriveRefused(cells, source, target, pid, tok, now);
    }
  }

  lemma DriveRefused(cells: Cells, source: string, target: string, pid: string, tok: string, now: nat)
    requires source in cells && target in cells && source != target && source != "" && target != "" && pid != "" && tok != ""
    requires !Prepare(cells[source], pid, target, tok, now).1.ok
    ensures Handoff.Drive(cells, source, target, pid, tok, now, Handoff.Finished) ==
            (cells[source := Prepare(cells[source], pid, target, tok, now).0], Handoff.PrepareFailed)
  {
    hide Prepare, Accept, Finalize;
  }

  lemma AcceptForHandoff(g: Cell, payload: Payload, source: string, target: string, tok: string)
    requires Inv(g) && RoomFor(g, 1) && payload.playerID != "" && tok != "" && tok !in g.acceptedByTk
    ensures var (t, acc) := Accept(g, Handoff.Readdressed(payload, source, target, tok));
            Inv(t) && acc.ok && acc.entity != 0 && t.world.nextID <= g.world.nextID + 1
  {
    hide Inv, Accept;
    Handoff.AcceptFirst(g, Handoff.Readdressed(payload, source, target, tok));
    AcceptCounts(g, Handoff.Readdressed(payload, source, target, tok));
  }

  lemma FinalizeForHandoff(d: Cell, pid: string, tok: string)
    requires Inv(d) && pid != "" && tok != "" && HasOpenRecord(d, pid, tok)
    ensures var (s, fin) := Finalize(d, pid, tok);
            Inv(s) && fin.ok && forall q, later: nat | q != pid :: InFlight(s, q, later) <==> InFlight(d, q, later)
  {
    hide Inv, InFlight, Finalize;
    Handoff.FinalizeOpen(d, pid, tok);
    forall q, later: nat | q != pid
      ensures InFlight(Finalize(d, pid, tok).0, q, later) <==> InFlight(d, q, later)
    {
      FinalizeSpares(d, pid, tok, q, later);
    }
  }

  lemma PrepareForHandoff(c: Cell, pid: string, target: string, tok: string, now: nat)
    requires Inv(c) && tok !in c.preparedByTk && tok != "" && target != "" && pid in c.playerByID && now > 0
    ensures pid != ""
    ensures var (d, prep) := Prepare(c, pid, target, tok, now);
            Inv(d) && (prep.ok <==> !InFlight(c, pid, now)) && (prep.ok <==> prep.payload.Some?) &&
            (prep.ok ==> prep.payload.value.playerID == pid && HasOpenRecord(d, pid, tok)) &&
            forall q, later: nat | q != pid && later >= now :: InFlight(d, q, later) <==> InFlight(c, q, later)
  {
    assert pid != "" by { assert PlayersMirrored(c); }
    hide Inv, Prepare, InFlight;
    PrepareKeeps(c, pid, target, tok, now);
    PrepareEffect(c, pid, target, tok, now);
    PrepareNames(c, pid, target, tok, now);
    FrozenAfterPrune(c, pid, now);
    PruneKeeps(c, now);
    forall q, later: nat | q != pid && later >= now
      ensures InFlight(Prepare(c, pid, target, tok, now).0, q, later) <==> InFlight(c, q, later)
    {
      PrepareSpares(c, pid, target, tok, now, q, later);
    }
  }

  lemma AcceptCounts(c: Cell, p: Payload)
    requires c.world.HasRoom()
    ensures Accept(c, p).0.world.nextID <= c.world.nextID + 1
  {
  }

  // ---------------------------------------------------------------- when all of them complete

  /** What the handoffs so far leave alone about one player of one child. */
  ghost predicate Untouched(before: Cell, after: Cell, p: string, since: nat) {
    (p in after.playerByID <==> p in before.playerByID) &&
    forall later: nat | later >= since :: InFlight(after, p, later) <==> InFlight(before, p, later)
  }

  ghost predicate OthersUntouched(before: Cells, after: Cells, kids: set<string>, todo: seq<Candidate>, since: nat) {
    forall id <- kids, p | Candidate(id, p) !in todo :: id in before && id in after && Untouched(before[id], after[id], p, since)
  }

  ghost predicate FamilySound(cells: Cells, parent: string, kids: set<string>) {
    parent in cells && kids <= cells.Keys && Inv(cells[parent]) && forall id <- kids :: Inv(cells[id])
  }

  /** The candidates are distinct registered players of named cells. */
  ghost predicate ProperList(cells: Cells, parent: string, kids: set<string>, todo: seq<Candidate>) {
    parent != "" && "" !in kids &&
    (forall i, j :: 0 <= i < j < |todo| ==> todo[i] != todo[j]) &&
    (forall c <- todo :: c.child in cells && c.player in cells[c.child].playerByID)
  }

  /** Times are positive and never go back. */
  ghost predicate Advancing(clock: nat -> nat) {
    (forall i: nat :: clock(i) > 0) && (forall i: nat, j: nat :: i <= j ==> clock(i) <= clock(j))
  }

  predicate NobodyInFlight(cells: Cells, todo: seq<Candidate>, clock: nat -> nat) {
    forall i: nat | i < |todo| :: todo[i].child in cells && !InFlight(cells[todo[i].child], todo[i].player, clock(i))
  }

  function LastTime(todo: seq<Candidate>, clock: nat -> nat): nat {
    if todo == [] then 0 else clock(|todo| - 1)
  }

  /** Uninterrupted, the handoffs all complete exactly when no listed player is
      in the middle of another handoff when their turn comes. */
  lemma {:induction false} MergeCompletes(cells: Cells, parent: string, kids: set<string>, todo: seq<Candidate>,
                                          clock: nat -> nat, reach: nat -> Handoff.Reach, spare: nat)
    requires FromChildren(cells, parent, kids, todo) && FreshTokens(cells, todo, clock) && Advancing(clock)
    requires FamilySound(cells, parent, kids) && ProperList(cells, parent, kids, todo)
    requires RoomFor(cells[parent], |todo| + spare) && forall i: nat :: reach(i) == Handoff.Finished
    ensures Move(cells, parent, todo, clock, reach).1 <==> NobodyInFlight(cells, todo, clock)
    ensures Move(cells, parent, todo, clock, reach).1 ==>
              var after := Move(cells, parent, todo, clock, reach).0;
              FamilySound(after, parent, kids) && RoomFor(after[parent], spare) &&
              OthersUntouched(cells, after, kids, todo, LastTime(todo, clock))
    decreases |todo|
  {
    hide *;
    if todo == [] {
      MoveNone(cells, parent, clock, reach);
      NothingDone(cells, parent, kids, todo, clock);
    } else {
      var n := |todo| - 1;
      var c, tok := todo[n], TokenFor(todo[n], clock(n));
      PrefixIsFine(cells, parent, kids, todo, clock);
      PrefixIsProper(cells, parent, kids, todo, clock);
      Apart(cells, parent, kids, todo);
      MergeCompletes(cells, parent, kids, todo[..n], clock, reach, spare + 1) by { RoomAdds(cells[parent], n, spare); }
      MoveUnfolds(cells, parent, todo, clock, reach);
      var (before, ok) := Move(cells, parent, todo[..n], clock, reach);
      if ok {
        MergeKeepsPlayers(cells, parent, kids, todo[..n], clock, reach);
        SoundMembers(before, parent, kids, c.child);
        TokenNotEmpty(c, clock(n));
        StillThere(cells, before, kids, todo, clock);
        HandoffCompletes(before, c.child, parent, c.player, tok, clock(n)) by { RoomSplits(before[parent], spare); ClockPositive(clock, n); }
        OneHandoff(before, c.child, parent, c.player, tok, clock(n), Handoff.Finished);
        if Move(cells, parent, todo, clock, reach).1 {
          OneMoreDone(cells, before, Move(cells, parent, todo, clock, reach).0, parent, kids, todo, clock, spare);
        }
      }
    }
  }

  lemma NothingDone(cells: Cells, parent: string, kids: set<string>, todo: seq<Candidate>, clock: nat -> nat)
    requires FamilySound(cells, parent, kids) && todo == []
    ensures OthersUntouched(cells, cells, kids, todo, LastTime(todo, clock)) && NobodyInFlight(cells, todo, clock)
  {
  }

  lemma PrefixIsProper(cells: Cells, parent: string, kids: set<string>, todo: seq<Candidate>, clock: nat -> nat)
    requires ProperList(cells, parent, kids, todo) && todo != []
    ensures ProperList(cells, parent, kids, todo[..|todo| - 1])
    ensures parent != "" && todo[|todo| - 1] !in todo[..|todo| - 1]
    ensures var c := todo[|todo| - 1]; (c.child in kids ==> c.child != "") && c.child in cells && c.player in cells[c.child].playerByID
    ensures NobodyInFlight(cells, todo, clock) <==>
              NobodyInFlight(cells, todo[..|todo| - 1], clock) &&
              !InFlight(cells[todo[|todo| - 1].child], todo[|todo| - 1].player, clock(|todo| - 1))
  {
    hide InFlight, NobodyInFlight;
    var n := |todo| - 1;
    assert todo == todo[..n] + [todo[n]];
    assert todo[n] in todo;
    assert forall c <- todo[..n] :: c in todo;
    InFlightOfPrefix(cells, todo, clock);
  }

  lemma InFlightOfPrefix(cells: Cells, todo: seq<Candidate>, clock: nat -> nat)
    requires todo != [] && todo[|todo| - 1].child in cells
    ensures NobodyInFlight(cells, todo, clock) <==>
              NobodyInFlight(cells, todo[..|todo| - 1], clock) &&
              !InFlight(cells[todo[|todo| - 1].child], todo[|todo| - 1].player, clock(|todo| - 1))
  {
    hide InFlight;
    assert forall i: nat | i < |todo| - 1 :: todo[..|todo| - 1][i] == todo[i];
  }

  lemma RoomAdds(c: Cell, n: nat, spare: nat)
    requires RoomFor(c, n + 1 + spare)
    ensures RoomFor(c, n + (spare + 1))
  {
  }

  lemma RoomSplits(c: Cell, spare: nat)
    requires RoomFor(c, spare + 1)
    ensures RoomFor(c, 1)
  {
  }

  lemma ClockPositive(clock: nat -> nat, n: nat)
    requires Advancing(clock)
    ensures clock(n) > 0
  {
  }

  lemma SoundMembers(cells: Cells, parent: string, kids: set<string>, id: string)
    requires FamilySound(cells, parent, kids) && id in kids
    ensures parent in cells && id in cells && Inv(cells[parent]) && Inv(cells[id])
  {
  }

  lemma TokenNotEmpty(c: Candidate, now: nat)
    ensures TokenFor(c, now) != ""
  {
    hide Decimal;
    var raw := "merge:" + c.child + ":" + c.player + ":" + Decimal(now);
    assert raw[0] == 'm';
    var l := TrimLeft(raw);
    assert l == raw;
    FirstCharStays(raw);
  }

  lemma {:induction false} FirstCharStays(s: string)
    requires s != "" && !IsSpace(s[0])
    ensures TrimRight(s) != ""
  {
    if IsSpace(s[|s| - 1]) {
      FirstCharStays(s[..|s| - 1]);
    }
  }

  /** The next candidate is as the listing found them. */
  lemma StillThere(cells: Cells, before: Cells, kids: set<string>, todo: seq<Candidate>, clock: nat -> nat)
    requires todo != [] && todo[|todo| - 1] !in todo[..|todo| - 1] && todo[|todo| - 1].child in kids && Advancing(clock)
    requires OthersUntouched(cells, before, kids, todo[..|todo| - 1], LastTime(todo[..|todo| - 1], clock))
    ensures var c := todo[|todo| - 1];
            c.child in cells && c.child in before && (c.player in before[c.child].playerByID <==> c.player in cells[c.child].playerByID) &&
            (InFlight(before[c.child], c.player, clock(|todo| - 1)) <==> InFlight(cells[c.child], c.player, clock(|todo| - 1)))
  {
    hide InFlight;
    var c := todo[|todo| - 1];
    assert Candidate(c.child, c.player) == c;
    assert Untouched(cells[c.child], before[c.child], c.player, LastTime(todo[..|todo| - 1], clock));
  }

  lemma OneMoreDone(cells: Cells, before: Cells, after: Cells, parent: string, kids: set<string>,
                    todo: seq<Candidate>, clock: nat -> nat, spare: nat)
    requires todo != [] && parent !in kids && todo[|todo| - 1].child in kids && Advancing(clock)
    requires FamilySound(before, parent, kids) && RoomFor(before[parent], spare + 1)
    requires OthersUntouched(cells, before, kids, todo[..|todo| - 1], LastTime(todo[..|todo| - 1], clock))
    requires var c := todo[|todo| - 1];
             Relocated(before, after, c.child, parent, c.player, true) && Inv(after[c.child]) && Inv(after[parent]) &&
             after[parent].world.nextID <= before[parent].world.nextID + 1 &&
             forall q, later: nat | q != c.player && later >= clock(|todo| - 1) ::
               InFlight(after[c.child], q, later) <==> InFlight(before[c.child], q, later)
    ensures FamilySound(after, parent, kids) && RoomFor(after[parent], spare) &&
            OthersUntouched(cells, after, kids, todo, LastTime(todo, clock))
  {
    hide InFlight, Inv;
    var n, c := |todo| - 1, todo[|todo| - 1];
    assert Candidate(c.child, c.player) == todo[n];
    forall id <- kids, p | Candidate(id, p) !in todo
      ensures id in cells && id in after && Untouched(cells[id], after[id], p, LastTime(todo, clock))
    {
      assert Candidate(id, p) !in todo[..n];
      assert Untouched(cells[id], before[id], p, LastTime(todo[..n], clock));
    }
  }

  // ---------------------------------------------------------------- the other entities

  /** Two worlds that agree on everyone but the players have the same other entities. */
  ghost predicate SameOthers(w: WorldState, ps: set<Entity>, w': WorldState, ps': set<Entity>) {
    forall e :: (e in w.alive && e !in ps <==> e in w'.alive && e !in ps') &&
      (e in w.alive && e !in ps ==> SameEntity(w, w', e))
  }

  predicate SameEntity(w: WorldState, w': WorldState, e: Entity) {
    (e in w.positions <==> e in w'.positions) && (e in w.positions ==> w.positions[e] == w'.positions[e]) &&
    w.VelocityOrStill(e) == w'.VelocityOrStill(e) &&
    (e in w.healths <==> e in w'.healths) && (e in w.healths ==> w.healths[e] == w'.healths[e])
  }

  lemma SameNpcs(w: WorldState, ps: set<Entity>, w': WorldState, ps': set<Entity>)
    requires SameOthers(w, ps, w', ps')
    ensures NpcsOf(w', ps') == NpcsOf(w, ps)
  {
    hide WorldState.VelocityOrStill;
    forall e | e in w.alive && e !in ps && e in w.positions ensures NpcAt(w', e) == NpcAt(w, e) {
      assert SameEntity(w, w', e);
    }
  }

  /** None of the three calls changes an entity that is not a player. */
  lemma PrepareKeepsNpcs(c: Cell, pid: string, target: string, tok: string, now: nat)
    requires Inv(c) && now > 0
    ensures var d := Prepare(c, pid, target, tok, now).0;
            Inv(d) && NpcsOf(d.world, d.players) == NpcsOf(c.world, c.players)
  {
    hide Prepare, Inv, NpcsOf;
    PrepareKeeps(c, pid, target, tok, now);
    PrepareWorld(c, pid, target, tok, now);
    var d := Prepare(c, pid, target, tok, now).0;
    SameNpcs(c.world, c.players, d.world, d.players);
  }

  lemma PrepareWorld(c: Cell, pid: string, target: string, tok: string, now: nat)
    requires Inv(c)
    ensures var d := Prepare(c, pid, target, tok, now).0;
            d.players == c.players &&
            (d.world == c.world || exists e <- c.players :: d.world == c.world.SetVelocity(e, STILL))
  {
    hide PayloadFor, HandoffsLinked;
  }

  lemma AcceptKeepsNpcs(c: Cell, p: Payload)
    requires Inv(c) && c.world.HasRoom()
    ensures var d := Accept(c, p).0;
            Inv(d) && NpcsOf(d.world, d.players) == NpcsOf(c.world, c.players)
  {
    AcceptSparesOthers(c, p);
    hide *;
    AcceptKeeps(c, p) by { RoomIsRoom(c); }
    var d := Accept(c, p).0;
    SameNpcs(c.world, c.players, d.world, d.players);
  }

  lemma AcceptSparesOthers(c: Cell, p: Payload)
    requires Inv(c) && c.world.HasRoom()
    ensures SameOthers(c.world, c.players, Accept(c, p).0.world, Accept(c, p).0.players)
  {
    hide HandoffsLinked, ArrivalHealth;
    CreateIsFresh(c.world);
  }

  lemma FinalizeKeepsNpcs(c: Cell, pid: string, tok: string)
    requires Inv(c)
    ensures var d := Finalize(c, pid, tok).0;
            Inv(d) && NpcsOf(d.world, d.players) == NpcsOf(c.world, c.players)
  {
    FinalizeSparesOthers(c, pid, tok);
    hide *;
    FinalizeKeeps(c, pid, tok);
    var d := Finalize(c, pid, tok).0;
    SameNpcs(c.world, c.players, d.world, d.players);
  }

  lemma FinalizeSparesOthers(c: Cell, pid: string, tok: string)
    requires Inv(c)
    ensures SameOthers(c.world, c.players, Finalize(c, pid, tok).0.world, Finalize(c, pid, tok).0.players)
  {
    if HasOpenRecord(c, pid, tok) && pid != "" && tok != "" {
      Handoff.FinalizeOpen(c, pid, tok);
      OneClosed(c, pid, tok);
      hide Inv, Finalize, HasOpenRecord;
    } else {
      NothingClosed(c, pid, tok);
      hide Finalize;
    }
  }

  lemma OneClosed(c: Cell, pid: string, tok: string)
    requires Inv(c) && HasOpenRecord(c, pid, tok) && pid != "" && tok != "" && pid in c.playerByID
    ensures Finalize(c, pid, tok).0.players == c.players - {c.playerByID[pid]} && c.playerByID[pid] in c.players
  {
    hide HandoffsLinked, WorldState.Destroy;
  }

  lemma NothingClosed(c: Cell, pid: string, tok: string)
    requires !HasOpenRecord(c, pid, tok) || pid == "" || tok == ""
    ensures Finalize(c, pid, tok).0.world == c.world && Finalize(c, pid, tok).0.players == c.players
  {
  }

  /** The cells a handoff can end with. */
  lemma DriveShape(cells: Cells, source: string, target: string, pid: string, tok: string, now: nat, reach: Handoff.Reach)
    returns (s: Cell, t: Cell)
    requires source in cells && target in cells && source != target
    ensures Handoff.Drive(cells, source, target, pid, tok, now, reach).0 == cells[source := s][target := t]
    ensures var (d, prep) := Prepare(cells[source], pid, target, tok, now);
            (s == cells[source] || s == d || s == Finalize(d, pid, tok).0) &&
            (t == cells[target] ||
             (prep.payload.Some? && t == Accept(cells[target], Handoff.Readdressed(prep.payload.value, source, target, tok)).0))
  {
    hide Prepare, Accept, Finalize;
    var (d, prep) := Prepare(cells[source], pid, target, tok, now);
    s, t := cells[source], cells[target];
    if source != "" && target != "" && pid != "" && tok != "" && !reach.Nowhere? {
      s := d;
      if prep.ok && prep.payload.Some? && !reach.Prepared? {
        var (g, acc) := Accept(cells[target], Handoff.Readdressed(prep.payload.value, source, target, tok));
        t := g;
        if acc.ok && acc.entity != 0 && !reach.Accepted? {
          s := Finalize(d, pid, tok).0;
        }
      }
    }
  }

  /** Hence no handoff, however far it gets, does, in either cell. */
  lemma HandoffKeepsNpcs(cells: Cells, source: string, target: string, pid: string, tok: string, now: nat,
                         reach: Handoff.Reach)
    requires source in cells && target in cells && source != target && now > 0
    requires Inv(cells[source]) && Inv(cells[target]) && cells[target].world.HasRoom()
    ensures var after := Handoff.Drive(cells, source, target, pid, tok, now, reach).0;
            source in after && target in after && KeepsNpcs(cells[source], after[source]) && KeepsNpcs(cells[target], after[target]) &&
            (forall id <- cells :: id in after && (id != source && id != target ==> after[id] == cells[id])) &&
            after[target].world.nextID <= cells[target].world.nextID + 1
  {
    hide *;
    var s, t := DriveShape(cells, source, target, pid, tok, now, reach);
    PrepareKeepsNpcs(cells[source], pid, target, tok, now);
    var (d, prep) := Prepare(cells[source], pid, target, tok, now);
    FinalizeKeepsNpcs(d, pid, tok);
    NpcsKept(cells[source], s);
    NpcsKept(cells[target], t);
    if t != cells[target] {
      AcceptKeepsNpcs(cells[target], Handoff.Readdressed(prep.payload.value, source, target, tok));
      AcceptCounts(cells[target], Handoff.Readdressed(prep.payload.value, source, target, tok));
    }
  }

  /** The cell stays sound and its other entities are the same. */
  ghost predicate KeepsNpcs(c: Cell, d: Cell) {
    Inv(d) && NpcsOf(d.world, d.players) == NpcsOf(c.world, c.players)
  }

  lemma NpcsKept(c: Cell, d: Cell)
    ensures Inv(d) && NpcsOf(d.world, d.players) == NpcsOf(c.world, c.players) <==> KeepsNpcs(c, d)
  {
  }

  /** Nor does any sequence of them, wherever it stops. */
  lemma {:induction false} MergeKeepsNpcs(cells: Cells, parent: string, kids: set<string>, todo: seq<Candidate>,
                                          clock: nat -> nat, reach: nat -> Handoff.Reach, spare: nat)
    requires FromChildren(cells, parent, kids, todo) && FreshTokens(cells, todo, clock) && Advancing(clock)
    requires FamilySound(cells, parent, kids) && RoomFor(cells[parent], |todo| + spare)
    ensures var after := Move(cells, parent, todo, clock, reach).0;
            after.Keys == cells.Keys && RoomFor(after[parent], spare) && FamilySound(after, parent, kids) &&
            KeepsNpcs(cells[parent], after[parent]) && forall id <- kids :: KeepsNpcs(cells[id], after[id])
    decreases |todo|
  {
    hide *;
    if todo == [] {
      MoveNone(cells, parent, clock, reach);
      NothingMoved(cells, parent, kids);
    } else {
      var n := |todo| - 1;
      PrefixIsFine(cells, parent, kids, todo, clock);
      Apart(cells, parent, kids, todo);
      RoomAdds(cells[parent], n, spare);
      MergeKeepsNpcs(cells, parent, kids, todo[..n], clock, reach, spare + 1);
      MergeKeepsPlayers(cells, parent, kids, todo[..n], clock, reach);
      MoveUnfolds(cells, parent, todo, clock, reach);
      var (before, ok) := Move(cells, parent, todo[..n], clock, reach);
      RoomSplits(before[parent], spare);
      if ok {
        var c := todo[n];
        SoundMembers(before, parent, kids, c.child);
        ClockPositive(clock, n);
        HandoffKeepsNpcs(before, c.child, parent, c.player, TokenFor(c, clock(n)), clock(n), reach(n)) by { RoomIsRoom(before[parent]); }
        MergeKeepsPlayers(cells, parent, kids, todo, clock, reach);
        StillKept(cells, before, Move(cells, parent, todo, clock, reach).0, parent, kids, c.child, spare);
      } else {
        RoomLess(before[parent], spare);
      }
    }
  }

  lemma NothingMoved(cells: Cells, parent: string, kids: set<string>)
    requires FamilySound(cells, parent, kids)
    ensures KeepsNpcs(cells[parent], cells[parent]) && forall id <- kids :: KeepsNpcs(cells[id], cells[id])
  {
  }

  lemma RoomIsRoom(c: Cell)
    ensures RoomFor(c, 1) <==> c.world.HasRoom()
  {
  }

  lemma RoomLess(c: Cell, spare: nat)
    requires RoomFor(c, spare + 1)
    ensures RoomFor(c, spare)
  {
  }

  lemma StillKept(cells: Cells, before: Cells, after: Cells, parent: string, kids: set<string>, child: string, spare: nat)
    requires parent in cells && parent !in kids && kids <= cells.Keys && before.Keys == cells.Keys == after.Keys && child in kids
    requires RoomFor(before[parent], spare + 1) && after[parent].world.nextID <= before[parent].world.nextID + 1
    requires KeepsNpcs(cells[parent], before[parent]) && forall id <- kids :: KeepsNpcs(cells[id], before[id])
    requires KeepsNpcs(before[parent], after[parent]) && KeepsNpcs(before[child], after[child])
    requires forall id <- before :: id != parent && id != child ==> after[id] == before[id]
    ensures RoomFor(after[parent], spare) && FamilySound(after, parent, kids)
    ensures KeepsNpcs(cells[parent], after[parent]) && forall id <- kids :: KeepsNpcs(cells[id], after[id])
  {
    hide Inv, NpcsOf;
  }
}
