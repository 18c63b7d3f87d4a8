/** The stream of a subscriber without an area of interest: the whole world at
    first, then whatever is marked; and exactly what its client comes to hold. */
module WholeWorld {
  import opened Text
  import opened Ecs
  import opened Grid
  import opened Replication

  /** The living entities with a position. */
  function Placed(w: WorldState): set<Entity> {
    set e <- w.alive | e in w.positions
  }

  /** The message of a round: a snapshot of the placed at first, then the marked, if any has a position. */
  ghost predicate SendsAll(w: WorldState, players: set<Entity>, first: bool, tick: nat, last: nat, sent: Option<Chunk>) {
    if first then exists es :: Lists(es, Placed(w)) && sent == Some(Snapshot(tick, StatesOf(w, SortEntities(es, players), players)))
    else exists es :: Lists(es, w.dirty) && sent == WorthSending(Delta(tick, last, StatesOf(w, SortEntities(es, players), players), []))
  }

  lemma {:induction false} UpdatedPositioned(client: Client, w: WorldState, es: seq<Entity>, players: set<Entity>)
    ensures forall e :: e in Updated(client, StatesOf(w, es, players)) <==> e in client || (e in es && e in w.positions)
    ensures forall e <- es | e in w.positions :: Updated(client, StatesOf(w, es, players))[e] == TheState(w, e, players)
    ensures forall e <- client :: !(e in es && e in w.positions) ==> Updated(client, StatesOf(w, es, players))[e] == client[e]
  {
    if es != [] {
      var front, e := es[..|es| - 1], es[|es| - 1];
      assert es == front + [e];
      UpdatedPositioned(client, w, front, players);
      var states := StatesOf(w, es, players);
      if e in w.positions {
        assert states[..|states| - 1] == StatesOf(w, front, players);
      }
    }
  }

  // ---------------------------------------------------------------- one round

  /** Between rounds the client knows the present state of whatever has a position and is not marked. */
  ghost predicate Knows(client: Client, w: WorldState, players: set<Entity>) {
    forall e <- w.positions :: e !in w.dirty ==> e in client && client[e] == TheState(w, e, players)
  }

  /** Whatever has a position without being alive is marked. */
  predicate StraysMarked(w: WorldState) {
    forall e <- w.positions :: e in w.alive || e in w.dirty
  }

  /** A later round brings the client up to date on everything that has a
      position; nothing it holds is ever taken away. */
  lemma LaterRoundKnows(client: Client, w: WorldState, players: set<Entity>, tick: nat, last: nat, sent: Option<Chunk>)
    requires Knows(client, w, players) && SendsAll(w, players, false, tick, last, sent)
    ensures var after := Apply(client, sent);
            after.Keys == client.Keys + w.positions.Keys && forall e <- w.positions :: after[e] == TheState(w, e, players)
  {
    hide StateOf, SortEntities;
    var es :| Lists(es, w.dirty) && sent == WorthSending(Delta(tick, last, StatesOf(w, SortEntities(es, players), players), []));
    var sorted := SortEntities(es, players);
    SameMembers(es, sorted);
    UpdatedPositioned(client, w, sorted, players);
    var after := Updated(client, StatesOf(w, sorted, players));
    NothingRemoved(client, after, sent, tick, last, StatesOf(w, sorted, players));
    hide Updated, StatesOf, Distinct, Apply;
    assert forall e :: e in sorted <==> e in w.dirty;
  }

  lemma NothingRemoved(client: Client, after: Client, sent: Option<Chunk>, tick: nat, last: nat, states: seq<EntityState>)
    requires sent == WorthSending(Delta(tick, last, states, [])) && after == Updated(client, states)
    ensures Apply(client, sent) == after
  {
    var none: seq<Entity> := [];
    assert (set e <- none) == {};
    assert after - {} == after;
  }

  lemma FirstRoundKnows(client: Client, w: WorldState, players: set<Entity>, tick: nat, last: nat, sent: Option<Chunk>)
    requires StraysMarked(w) && SendsAll(w, players, true, tick, last, sent)
    ensures Knows(Apply(client, sent), w, players) && Apply(client, sent).Keys == Placed(w)
  {
    hide StateOf, SortEntities;
    var es :| Lists(es, Placed(w)) && sent == Some(Snapshot(tick, StatesOf(w, SortEntities(es, players), players)));
    var sorted := SortEntities(es, players);
    SameMembers(es, sorted);
    UpdatedPositioned(map[], w, sorted, players);
    hide Updated, StatesOf, Distinct;
  }

  // ---------------------------------------------------------------- whole runs

  datatype Turn = Happens(change: Change) | Sent(tick: nat, sent: Option<Chunk>)

  /** The server, the subscriber, the client, and everybody any round has shown it. */
  datatype Feed = Feed(server: Server, first: bool, last: nat, client: Client, shown: set<Entity>)

  ghost predicate Legal(f: Feed, t: Turn) {
    t.Sent? ==> SendsAll(f.server.world, f.server.players, f.first, t.tick, f.last, t.sent)
  }

  /** The first round leaves the marks in place and shows the placed; every later
      one takes them and shows whatever has a position. */
  function Next(f: Feed, t: Turn): Feed {
    match t
    case Happens(c) => f.(server := After(f.server, c))
    case Sent(tick, sent) =>
      var w := f.server.world;
      if f.first then Feed(f.server, false, tick, Apply(f.client, sent), Placed(w))
      else Feed(f.server.(world := w.(dirty := {})), false, tick, Apply(f.client, sent), f.shown + w.positions.Keys)
  }

  ghost predicate LegalRun(f: Feed, run: seq<Turn>)
    decreases |run|
  {
    run == [] || (Legal(f, run[0]) && LegalRun(Next(f, run[0]), run[1..]))
  }

  function RunAll(f: Feed, run: seq<Turn>): Feed
    decreases |run|
  {
    if run == [] then f else RunAll(Next(f, run[0]), run[1..])
  }

  ghost predicate InStep(f: Feed) {
    if f.first then StraysMarked(f.server.world)
    else Knows(f.client, f.server.world, f.server.players) && f.client.Keys == f.shown
  }

  /** The client has the truth about everything with a position, and holds
      exactly those that any round has shown it, gone or not. */
  ghost predicate HoldsAllShown(f: Feed) {
    f.client.Keys == f.shown &&
    forall e <- f.server.world.positions ::
      e in f.client && f.client[e].id == e && TellsTruth(f.client[e], f.server.world, f.server.players)
  }

  lemma TurnKeepsInStep(f: Feed, t: Turn)
    requires InStep(f) && Legal(f, t)
    ensures InStep(Next(f, t))
    ensures t.Sent? && !f.first ==> HoldsAllShown(Next(f, t))
  {
    match t
    case Happens(c) =>
      if f.first {
        ChangeKeepsStrays(f.server, c);
      } else {
        ChangeKeepsKnows(f.client, f.server, c);
      }
    case Sent(tick, sent) =>
      var w, players := f.server.world, f.server.players;
      hide After, Apply, SendsAll, StateOf, TellsTruth;
      if f.first {
        FirstRoundKnows(f.client, w, players, tick, f.last, sent);
      } else {
        LaterRoundKnows(f.client, w, players, tick, f.last, sent);
        MarksTellNothing(w, players);
        forall e | e in w.positions ensures TheState(w, e, players).id == e && TellsTruth(TheState(w, e, players), w.(dirty := {}), players) {
          StateIsTruth(w.(dirty := {}), e, players, TheState(w, e, players));
        }
      }
  }

  lemma MarksTellNothing(w: WorldState, players: set<Entity>)
    ensures forall e <- w.positions :: TheState(w.(dirty := {}), e, players) == TheState(w, e, players)
  {
  }

  lemma ChangeKeepsStrays(s: Server, c: Change)
    requires StraysMarked(s.world)
    ensures StraysMarked(After(s, c).world)
  {
  }

  lemma ChangeKeepsKnows(client: Client, s: Server, c: Change)
    requires Knows(client, s.world, s.players)
    ensures Knows(client, After(s, c).world, After(s, c).players)
  {
    var t := After(s, c);
    forall e <- t.world.positions | e !in t.world.dirty ensures e in client && client[e] == TheState(t.world, e, t.players) {
      SameState(s, c, e);
    }
  }

  lemma {:induction false} FeedKeepsInStep(f: Feed, run: seq<Turn>)
    requires InStep(f) && LegalRun(f, run)
    ensures InStep(RunAll(f, run))
    ensures run != [] && run[|run| - 1].Sent? && !f.first ==> HoldsAllShown(RunAll(f, run))
    ensures !f.first ==> f.shown <= RunAll(f, run).shown && !RunAll(f, run).first
    decreases |run|
  {
    hide InStep, Legal, HoldsAllShown;
    if run != [] {
      TurnKeepsInStep(f, run[0]);
      FeedKeepsInStep(Next(f, run[0]), run[1..]);
      if |run| == 1 {
        assert run[1..] == [];
      } else {
        assert run[1..][|run| - 2] == run[|run| - 1];
      }
    }
  }

  /** After any round but the first of any run, the client's view of the whole
      world is right if and only if everybody it was ever shown still has a
      position: a departure is never told. */
  lemma WholeViewExactly(f: Feed, run: seq<Turn>)
    requires InStep(f) && !f.first && LegalRun(f, run) && run != [] && run[|run| - 1].Sent?
    ensures var end := RunAll(f, run);
            HoldsAllShown(end) && f.shown <= end.shown &&
            (Shows(end.client, end.server.world, end.server.players, end.server.world.positions.Keys) <==>
             end.shown <= end.server.world.positions.Keys)
  {
    FeedKeepsInStep(f, run);
    var end := RunAll(f, run);
    hide InStep, LegalRun, RunAll, TellsTruth;
    if end.shown <= end.server.world.positions.Keys {
      assert forall e <- end.client :: e in end.server.world.positions;
    }
  }

  /** Whoever is destroyed after being shown stays in the client for good, however the run goes on. */
  lemma DepartedStays(f: Feed, e: Entity, run: seq<Turn>)
    requires InStep(f) && !f.first && e in f.client && LegalRun(Next(f, Happens(Destroy(e))), run)
    ensures var gone := Next(f, Happens(Destroy(e)));
            e !in gone.server.world.positions && e in RunAll(gone, run).client
  {
    TurnKeepsInStep(f, Happens(Destroy(e)));
    FeedKeepsInStep(Next(f, Happens(Destroy(e))), run);
    hide LegalRun, RunAll;
  }
}
