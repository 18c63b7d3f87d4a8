/** The subscriber's whole loop over the live world, and the proof that its
    rounds make a stream to which the client converges. */
module SubscriptionRun {
  import opened Text
  import opened Ecs
  import opened Grid
  import opened Replication
  import opened Subscription
  import Systems

  /** What happens to the world before a round, and the tick at which the round reads it. */
  datatype Turn = Turn(changes: seq<Change>, tick: nat)

  /** One change on the live world; a simulation step ends with rebuilding the index. */
  method Perform(w: World, grid: SpatialGrid, players: set<Entity>, c: Change) returns (after: set<Entity>)
    requires grid.Valid()
    modifies w, grid`buckets, grid`entityCell
    ensures grid.Valid()
    ensures Server(w.State(), after) == After(Server(old(w.State()), players), c)
    ensures !c.Simulate? ==> grid.entityCell == old(grid.entityCell)
  {
    hide WorldState.Moved, WorldState.Regenerated, KeyAt, Indexed;
    after := players;
    match c {
      case Create => var _ := w.CreateEntity();
      case Destroy(e) => w.DestroyEntity(e);
      case SetPosition(e, p) => w.SetPosition(e, p);
      case SetVelocity(e, v) => w.SetVelocity(e, v);
      case SetHealth(e, h) => w.SetHealth(e, h);
      case Simulate(dt, rate) =>
        Systems.Movement(w, dt);
        Systems.HealthRegen(w, rate, dt);
        grid.RebuildFromWorld(w);
      case Enroll(e, p) =>
        w.SetPosition(e, p);
        after := players + {e};
      case Dismiss(e) =>
        w.DestroyEntity(e);
        after := players - {e};
    }
  }

  function Mutations(changes: seq<Change>): (run: seq<Event>)
    ensures |run| == |changes|
  {
    seq(|changes|, i requires 0 <= i < |changes| => Mutate(changes[i]))
  }

  /** What a client holds that starts empty and applies every message. */
  function Received(sent: seq<Option<Chunk>>): Client {
    if sent == [] then map[] else Apply(Received(sent[..|sent| - 1]), sent[|sent| - 1])
  }

  lemma {:induction false} RunMore(s: Stream, viewer: Entity, run: seq<Event>, ev: Event)
    ensures RunAll(s, run + [ev]) == Next(RunAll(s, run), ev)
    ensures LegalRun(s, viewer, run + [ev]) <==> LegalRun(s, viewer, run) && Legal(RunAll(s, run), viewer, ev)
    decreases |run|
  {
    hide Legal, Next;
    if run == [] {
      assert run + [ev] == [ev] && [ev][1..] == [];
    } else {
      assert (run + [ev])[1..] == run[1..] + [ev];
      RunMore(Next(s, run[0]), viewer, run[1..], ev);
    }
  }

  /** The run so far: legal as long as the area of interest was in use, and ending
      in the present server, the subscriber's memory and the client's view. */
  ghost predicate Recorded(s: Stream, viewer: Entity, run: seq<Event>, now: Stream) {
    LegalRun(s, viewer, run) && RunAll(s, run) == now
  }

  /** All changes of a turn, one after the other. */
  method PerformAll(w: World, grid: SpatialGrid, players: set<Entity>, changes: seq<Change>, ghost start: Stream,
                    ghost viewer: Entity, ghost soFar: seq<Event>, ghost stream: Stream)
    returns (after: set<Entity>, ghost run: seq<Event>)
    requires grid.Valid() && stream.server == Server(w.State(), players)
    modifies w, grid`buckets, grid`entityCell
    ensures grid.Valid() && run == soFar + Mutations(changes)
    ensures Recorded(start, viewer, soFar, stream) ==> Recorded(start, viewer, run, stream.(server := Server(w.State(), after)))
  {
    hide Recorded, After, Indexed, KeyAt;
    after, run := players, soFar;
    for i := 0 to |changes|
      invariant grid.Valid() && run == soFar + Mutations(changes[..i])
      invariant Recorded(start, viewer, soFar, stream) ==> Recorded(start, viewer, run, stream.(server := Server(w.State(), after)))
    {
      ghost var before := stream.(server := Server(w.State(), after));
      after := Perform(w, grid, after, changes[i]);
      RecordChange(start, viewer, run, before, changes[i]);
      run := run + [Mutate(changes[i])];
      assert Mutations(changes[..i + 1]) == Mutations(changes[..i]) + [Mutate(changes[i])];
    }
    assert changes[..|changes|] == changes;
  }

  lemma RecordChange(start: Stream, viewer: Entity, run: seq<Event>, now: Stream, c: Change)
    ensures Recorded(start, viewer, run, now) ==>
              Recorded(start, viewer, run + [Mutate(c)], now.(server := After(now.server, c)))
  {
    RunMore(start, viewer, run, Mutate(c));
    hide After;
  }

  lemma RecordRound(start: Stream, viewer: Entity, run: seq<Event>, now: Stream, tick: nat, cur: set<Entity>, sent: Option<Chunk>)
    requires Recorded(start, viewer, run, now) && viewer in cur && forall e <- cur :: e in now.server.world.positions
    requires Sends(now.server.world, now.server.players, viewer, now.prev, cur, tick, now.last, sent)
    ensures Recorded(start, viewer, run + [Round(tick, cur, sent)], Next(now, Round(tick, cur, sent)))
  {
    RunMore(start, viewer, run, Round(tick, cur, sent));
    hide Sends, Next;
  }

  lemma StartRecorded(s: Stream, viewer: Entity)
    ensures Recorded(s, viewer, [], s) && (s.prev.None? ==> InStep(s))
  {
  }

  /** Between any two rounds the world may change in any way; as long as the
      viewer keeps its position, the messages sent make a legal stream, and a
      client that applies them holds after every round exactly the present state
      of what that round saw: with a current index, the disc around the viewer. */
  method Serve(sub: Subscriber, w: World, grid: SpatialGrid, players: set<Entity>, turns: seq<Turn>)
    returns (sent: seq<Option<Chunk>>, after: set<Entity>, ghost run: seq<Event>)
    requires grid.Valid() && sub.first && sub.prevVisible.None? && sub.useAOI
    modifies sub, w, grid`buckets, grid`entityCell
    ensures |sent| == |turns| && grid.Valid()
    ensures sub.useAOI ==>
              LegalRun(Stream(Server(old(w.State()), players), None, old(sub.lastSendTick), map[]), sub.viewer, run) &&
              RunAll(Stream(Server(old(w.State()), players), None, old(sub.lastSendTick), map[]), run) ==
                Stream(Server(w.State(), after), sub.prevVisible, sub.lastSendTick, Received(sent))
    ensures sub.useAOI && turns != [] ==>
              sub.prevVisible.Some? && Received(sent) == ViewOf(w.State(), after, sub.prevVisible.value) &&
              Shows(Received(sent), w.State(), after, sub.prevVisible.value)
    ensures sub.useAOI && turns != [] && Current(grid.cellSize, grid.entityCell, w.positions) ==>
              sub.viewer in w.positions &&
              forall e :: e in sub.prevVisible.value <==>
                e == sub.viewer || (e in grid.entityCell && InDisc(w.positions, e, w.positions[sub.viewer].x, w.positions[sub.viewer].z, AOI_RADIUS))
  {
    hide Recorded, Sends, InDisc, Current, Indexed, ViewOf, Shows, Received, Next, LegalRun, RunAll, Apply;
    ghost var start := Stream(Server(w.State(), players), None, sub.lastSendTick, map[]);
    StartRecorded(start, sub.viewer);
    NothingReceived();
    sent, after, run := [], players, [];
    for i := 0 to |turns|
      invariant grid.Valid() && |sent| == i && sub.first == (i == 0) && (i == 0 ==> sub.prevVisible.None?)
      invariant sub.useAOI && i > 0 ==> sub.prevVisible.Some? && run != [] && run[|run| - 1] == Round(turns[i - 1].tick, sub.prevVisible.value, sent[i - 1])
      invariant sub.useAOI ==> Recorded(start, sub.viewer, run, Stream(Server(w.State(), after), sub.prevVisible, sub.lastSendTick, Received(sent)))
      invariant sub.useAOI && i > 0 && Current(grid.cellSize, grid.entityCell, w.positions) ==>
                  sub.viewer in w.positions &&
                  forall e :: e in sub.prevVisible.value <==>
                    e == sub.viewer || (e in grid.entityCell && InDisc(w.positions, e, w.positions[sub.viewer].x, w.positions[sub.viewer].z, AOI_RADIUS))
    {
      after, run := PerformAll(w, grid, after, turns[i].changes, start, sub.viewer, run,
                               Stream(Server(w.State(), after), sub.prevVisible, sub.lastSendTick, Received(sent)));
      ghost var now := Stream(Server(w.State(), after), sub.prevVisible, sub.lastSendTick, Received(sent));
      var message := sub.Round(w, grid, after, turns[i].tick);
      if sub.useAOI {
        RecordRound(start, sub.viewer, run, now, turns[i].tick, sub.prevVisible.value, message);
        RoundEnds(now, w.State(), turns[i].tick, sub.prevVisible.value, message);
        run := run + [Round(turns[i].tick, sub.prevVisible.value, message)];
      }
      ReceivedMore(sent, message);
      sent := sent + [message];
    }
    if sub.useAOI {
      Converged(start, sub.viewer, run, Stream(Server(w.State(), after), sub.prevVisible, sub.lastSendTick, Received(sent)));
    }
  }

  lemma NothingReceived()
    ensures Received([]) == map[]
  {
  }

  lemma ReceivedMore(sent: seq<Option<Chunk>>, message: Option<Chunk>)
    ensures Received(sent + [message]) == Apply(Received(sent), message)
  {
    assert (sent + [message])[..|sent|] == sent;
  }

  lemma RoundEnds(now: Stream, w: WorldState, tick: nat, cur: set<Entity>, sent: Option<Chunk>)
    requires w == if now.prev.None? then now.server.world else now.server.world.(dirty := {})
    ensures Next(now, Round(tick, cur, sent)) == Stream(Server(w, now.server.players), Some(cur), tick, Apply(now.client, sent))
  {
    hide Apply;
  }

  lemma Converged(start: Stream, viewer: Entity, run: seq<Event>, end: Stream)
    requires Recorded(start, viewer, run, end) && start.prev.None?
    ensures LegalRun(start, viewer, run) && RunAll(start, run) == end
    ensures run != [] && run[|run| - 1].Round? ==>
              end.client == ViewOf(end.server.world, end.server.players, run[|run| - 1].cur) &&
              Shows(end.client, end.server.world, end.server.players, run[|run| - 1].cur)
  {
    StartRecorded(start, viewer);
    hide LegalRun, RunAll, InStep, ViewOf, Shows;
    StreamConverges(start, viewer, run);
  }
}
