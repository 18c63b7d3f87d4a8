/** The stream of one subscriber: a snapshot of what its viewer sees, then the
    changes, and why a client that applies them always holds the visible world. */
module Replication {
  import opened Text
  import opened Ecs
  import opened Grid

  datatype EntityState = EntityState(id: Entity, position: Position, isPlayer: bool, healthPct: real)

  /** Nothing without a position; health as a fraction, 0 when there is none. */
  function StateOf(w: WorldState, e: Entity, isPlayer: bool): Option<EntityState> {
    if e !in w.positions then None
    else
      var pct := if e in w.healths && w.healths[e].maxHP > 0.0 then w.healths[e].hp / w.healths[e].maxHP else 0.0;
      Some(EntityState(e, w.positions[e], isPlayer, pct))
  }

  /** What a state says, against the maps of the world: where the entity is,
      whether it is a player, and how much of its maximum health it has, which is
      0 when there is no positive maximum. */
  predicate TellsTruth(st: EntityState, w: WorldState, players: set<Entity>) {
    st.id in w.positions && st.position == w.positions[st.id] && (st.isPlayer <==> st.id in players) &&
    if st.id in w.healths && w.healths[st.id].maxHP > 0.0 then IsShare(st.healthPct, w.healths[st.id].hp, w.healths[st.id].maxHP)
    else st.healthPct == 0.0
  }

  predicate IsShare(pct: real, part: real, whole: real) {
    pct * whole == part
  }

  lemma ShareIsOne(p: real, q: real, part: real, whole: real)
    requires whole > 0.0
    ensures IsShare(part / whole, part, whole)
    ensures IsShare(p, part, whole) && IsShare(q, part, whole) ==> p == q
  {
    if IsShare(p, part, whole) && IsShare(q, part, whole) {
      assert (p - q) * whole == 0.0;
    }
  }

  function TheState(w: WorldState, e: Entity, players: set<Entity>): EntityState
    requires e in w.positions
  {
    StateOf(w, e, e in players).value
  }

  /** The state of an entity is the one true thing there is to say about it. */
  lemma StateIsTruth(w: WorldState, e: Entity, players: set<Entity>, st: EntityState)
    requires e in w.positions
    ensures st == TheState(w, e, players) <==> st.id == e && TellsTruth(st, w, players)
  {
    if e in w.healths && w.healths[e].maxHP > 0.0 {
      ShareIsOne(st.healthPct, w.healths[e].hp / w.healths[e].maxHP, w.healths[e].hp, w.healths[e].maxHP);
    }
    hide IsShare;
  }

  // ---------------------------------------------------------------- the canonical order

  /** Players first, then by id. */
  predicate Precedes(players: set<Entity>, a: Entity, b: Entity) {
    if (a in players) != (b in players) then a in players else a < b
  }

  predicate Ordered(s: seq<Entity>, players: set<Entity>) {
    forall i, j :: 0 <= i < j < |s| ==> s[i] == s[j] || Precedes(players, s[i], s[j])
  }

  function InsertOrdered(s: seq<Entity>, e: Entity, players: set<Entity>): (r: seq<Entity>)
    ensures multiset(r) == multiset(s) + multiset{e}
  {
    if s == [] then [e]
    else if Precedes(players, e, s[0]) then [e] + s
    else
      assert s == [s[0]] + s[1..];
      [s[0]] + InsertOrdered(s[1..], e, players)
  }

  function SortEntities(s: seq<Entity>, players: set<Entity>): (r: seq<Entity>)
    ensures multiset(r) == multiset(s)
  {
    if s == [] then []
    else
      assert s == s[..|s| - 1] + [s[|s| - 1]];
      InsertOrdered(SortEntities(s[..|s| - 1], players), s[|s| - 1], players)
  }

  lemma {:induction false} InsertKeepsOrder(s: seq<Entity>, e: Entity, players: set<Entity>)
    requires Ordered(s, players)
    ensures Ordered(InsertOrdered(s, e, players), players)
  {
    if s != [] && !Precedes(players, e, s[0]) {
      InsertKeepsOrder(s[1..], e, players);
      var rest := InsertOrdered(s[1..], e, players);
      forall x | x in rest ensures x == s[0] || Precedes(players, s[0], x) {
        assert x in multiset(rest);
        if x != e {
          assert x in s[1..];
        }
      }
    }
  }

  lemma {:induction false} SortIsOrdered(s: seq<Entity>, players: set<Entity>)
    ensures Ordered(SortEntities(s, players), players)
  {
    if s != [] {
      SortIsOrdered(s[..|s| - 1], players);
      InsertKeepsOrder(SortEntities(s[..|s| - 1], players), s[|s| - 1], players);
    }
  }

  /** The order is canonical: whatever order the entities came in, and however
      they are sorted, the result is the same. */
  lemma {:induction false} OrderIsCanonical(a: seq<Entity>, b: seq<Entity>, players: set<Entity>)
    requires Ordered(a, players) && Ordered(b, players) && multiset(a) == multiset(b)
    ensures a == b
  {
    if a == [] {
      assert |multiset(b)| == 0;
    } else {
      assert |multiset(a)| == |a| && |multiset(b)| == |b|;
      FirstAgree(a, b, players);
      TailsAgree(a, b);
      OrderIsCanonical(a[1..], b[1..], players);
      assert a == [a[0]] + a[1..] && b == [b[0]] + b[1..];
    }
  }

  lemma FirstAgree(a: seq<Entity>, b: seq<Entity>, players: set<Entity>)
    requires Ordered(a, players) && Ordered(b, players) && multiset(a) == multiset(b) && a != [] && b != []
    ensures a[0] == b[0]
  {
    SameMembers(a, b);
    assert a[0] in a && b[0] in b;
    var i :| 0 <= i < |b| && b[i] == a[0];
    var j :| 0 <= j < |a| && a[j] == b[0];
  }

  lemma TailsAgree(a: seq<Entity>, b: seq<Entity>)
    requires multiset(a) == multiset(b) && a != [] && b != [] && a[0] == b[0]
    ensures multiset(a[1..]) == multiset(b[1..])
  {
    assert a == [a[0]] + a[1..] && b == [b[0]] + b[1..];
    assert multiset(a) == multiset{a[0]} + multiset(a[1..]);
    assert multiset(b) == multiset{b[0]} + multiset(b[1..]);
    assert multiset(a[1..]) == multiset(a) - multiset{a[0]};
    assert multiset(b[1..]) == multiset(b) - multiset{b[0]};
  }

  // ---------------------------------------------------------------- messages

  datatype Chunk =
    | Snapshot(tick: nat, entities: seq<EntityState>)
    | Delta(tick: nat, fromTick: nat, changed: seq<EntityState>, removed: seq<Entity>)

  function StatesOf(w: WorldState, es: seq<Entity>, players: set<Entity>): seq<EntityState> {
    if es == [] then []
    else
      var e := es[|es| - 1];
      var front := StatesOf(w, es[..|es| - 1], players);
      var st := StateOf(w, e, e in players);
      if st.Some? then front + [st.value] else front
  }

  method BuildStates(w: WorldState, es: seq<Entity>, players: set<Entity>) returns (out: seq<EntityState>)
    ensures out == StatesOf(w, SortEntities(es, players), players)
    ensures forall st <- out :: st.id in es && TellsTruth(st, w, players)
    ensures (forall e <- es :: e in w.positions) ==> |out| == |es|
  {
    hide SortEntities, StateOf, TellsTruth;
    var ordered := SortEntities(es, players);
    out := [];
    for i := 0 to |ordered|
      invariant out == StatesOf(w, ordered[..i], players)
    {
      assert ordered[..i + 1][..i] == ordered[..i];
      var st := StateOf(w, ordered[i], ordered[i] in players);
      if st.Some? {
        out := out + [st.value];
      }
    }
    assert ordered[..|ordered|] == ordered;
    SameMembers(es, ordered);
    assert |multiset(es)| == |es| && |multiset(ordered)| == |ordered|;
    StatesReport(w, ordered, players);
  }

  // ---------------------------------------------------------------- the client

  type Client = map<Entity, EntityState>

  function Updated(client: Client, states: seq<EntityState>): Client {
    if states == [] then client
    else Updated(client, states[..|states| - 1])[states[|states| - 1].id := states[|states| - 1]]
  }

  function Apply(client: Client, chunk: Option<Chunk>): Client {
    match chunk
    case None => client
    case Some(Snapshot(_, entities)) => Updated(map[], entities)
    case Some(Delta(_, _, changed, removed)) => Updated(client, changed) - set e <- removed
  }

  /** The visible world: the present state of each visible entity. */
  function ViewOf(w: WorldState, players: set<Entity>, visible: set<Entity>): Client {
    map e <- visible | e in w.positions :: StateOf(w, e, e in players).value
  }

  lemma {:induction false} UpdatedMeans(client: Client, w: WorldState, es: seq<Entity>, players: set<Entity>)
    requires forall e <- es :: e in w.positions
    ensures forall e :: e in Updated(client, StatesOf(w, es, players)) <==> e in client || e in es
    ensures forall e <- es :: Updated(client, StatesOf(w, es, players))[e] == StateOf(w, e, e in players).value
    ensures forall e <- client :: e !in es ==> Updated(client, StatesOf(w, es, players))[e] == client[e]
  {
    if es != [] {
      var front, e := es[..|es| - 1], es[|es| - 1];
      assert es == front + [e];
      UpdatedMeans(client, w, front, players);
      var states := StatesOf(w, es, players);
      assert states[..|states| - 1] == StatesOf(w, front, players);
    }
  }

  // ---------------------------------------------------------------- one send round

  /** Who must be in `changed`: the visible that are marked or newly visible. */
  function Changed(w: WorldState, viewer: Entity, prev: set<Entity>, cur: set<Entity>): set<Entity> {
    (set e <- w.dirty | e in cur || e == viewer) + (cur - prev)
  }

  /** `s` lists `es`, each once. */
  ghost predicate Lists(s: seq<Entity>, es: set<Entity>) {
    Distinct(s) && forall e :: e in s <==> e in es
  }

  /** The message of a round that sees `cur`: a snapshot at first, then a delta
      or, with nothing to say, nothing. */
  ghost predicate Sends(w: WorldState, players: set<Entity>, viewer: Entity, prev: Option<set<Entity>>, cur: set<Entity>,
                        tick: nat, last: nat, sent: Option<Chunk>)
  {
    match prev
    case None => exists es :: Lists(es, cur) && sent == Some(Snapshot(tick, StatesOf(w, SortEntities(es, players), players)))
    case Some(was) =>
      exists es, removed :: Lists(es, Changed(w, viewer, was, cur)) && Lists(removed, was - cur) &&
        sent == WorthSending(Delta(tick, last, StatesOf(w, SortEntities(es, players), players), removed))
  }

  function WorthSending(delta: Chunk): Option<Chunk>
    requires delta.Delta?
  {
    if |delta.changed| > 0 || |delta.removed| > 0 then Some(delta) else None
  }

  /** Between rounds: the client knows those seen last, and knows the present
      state of each of them that still has a position and is not marked. */
  ghost predicate Tracks(client: Client, w: WorldState, players: set<Entity>, seen: set<Entity>) {
    client.Keys == seen &&
    forall e <- seen :: e in w.positions && e !in w.dirty ==> client[e] == StateOf(w, e, e in players).value
  }

  lemma SameMembers(a: seq<Entity>, b: seq<Entity>)
    requires multiset(a) == multiset(b)
    ensures forall e :: e in a <==> e in b
  {
    forall e ensures e in a <==> e in b {
      assert e in a <==> e in multiset(a);
      assert e in b <==> e in multiset(b);
    }
  }

  /** After a round, sent or silent, the client holds exactly the visible world. */
  lemma RoundConverges(client: Client, w: WorldState, players: set<Entity>, viewer: Entity, prev: Option<set<Entity>>,
                       cur: set<Entity>, tick: nat, last: nat, sent: Option<Chunk>)
    requires Sends(w, players, viewer, prev, cur, tick, last, sent)
    requires viewer in cur && forall e <- cur :: e in w.positions
    requires prev.Some? ==> Tracks(client, w, players, prev.value)
    ensures Apply(client, sent) == ViewOf(w, players, cur)
  {
    hide StateOf, SortEntities;
    match prev {
      case None =>
        var es :| Lists(es, cur) && sent == Some(Snapshot(tick, StatesOf(w, SortEntities(es, players), players)));
        SnapshotConverges(w, players, cur, es);
      case Some(was) =>
        var es, removed :| Lists(es, Changed(w, viewer, was, cur)) && Lists(removed, was - cur) &&
          sent == WorthSending(Delta(tick, last, StatesOf(w, SortEntities(es, players), players), removed));
        var sorted := SortEntities(es, players);
        DeltaConverges(client, w, players, viewer, was, cur, es, sorted, removed);
        if sent.None? {
          assert (set e <- removed) == {};
          assert client - {} == client;
        }
    }
  }

  lemma SnapshotConverges(w: WorldState, players: set<Entity>, cur: set<Entity>, es: seq<Entity>)
    requires Lists(es, cur) && forall e <- cur :: e in w.positions
    ensures Updated(map[], StatesOf(w, SortEntities(es, players), players)) == ViewOf(w, players, cur)
  {
    hide StateOf, SortEntities;
    SameMembers(es, SortEntities(es, players));
    UpdatedMeans(map[], w, SortEntities(es, players), players);
  }

  lemma DeltaConverges(client: Client, w: WorldState, players: set<Entity>, viewer: Entity, was: set<Entity>, cur: set<Entity>,
                       es: seq<Entity>, sorted: seq<Entity>, removed: seq<Entity>)
    requires Tracks(client, w, players, was) && viewer in cur && forall e <- cur :: e in w.positions
    requires Lists(es, Changed(w, viewer, was, cur)) && Lists(removed, was - cur) && multiset(sorted) == multiset(es)
    ensures Updated(client, StatesOf(w, sorted, players)) - (set e <- removed) == ViewOf(w, players, cur)
  {
    hide StateOf;
    SameMembers(es, sorted);
    UpdatedMeans(client, w, sorted, players);
    var after := Updated(client, StatesOf(w, sorted, players)) - set e <- removed;
    hide Updated, StatesOf, Distinct;
    assert forall e :: e in sorted <==> e in Changed(w, viewer, was, cur);
    assert forall e :: e in after <==> e in cur;
  }

  /** `changed` and `removed` name nobody twice and have nobody in common. */
  lemma DeltaIsClean(w: WorldState, players: set<Entity>, viewer: Entity, prev: set<Entity>, cur: set<Entity>,
                     tick: nat, last: nat, sent: Option<Chunk>)
    requires Sends(w, players, viewer, Some(prev), cur, tick, last, sent) && viewer in cur && sent.Some?
    ensures sent.value.Delta? && Distinct(sent.value.removed)
    ensures forall i, j :: 0 <= i < j < |sent.value.changed| ==> sent.value.changed[i].id != sent.value.changed[j].id
    ensures forall st <- sent.value.changed :: st.id !in sent.value.removed && st.id in cur
    ensures forall e <- sent.value.removed :: e in prev && e !in cur
  {
    hide StateOf, SortEntities;
    var es, removed :| Lists(es, Changed(w, viewer, prev, cur)) && Lists(removed, prev - cur) &&
      sent == WorthSending(Delta(tick, last, StatesOf(w, SortEntities(es, players), players), removed));
    var sorted := SortEntities(es, players);
    SameMembers(es, sorted);
    DistinctSorted(es, sorted);
    StatesNamed(w, sorted, players);
  }

  lemma DistinctSorted(a: seq<Entity>, b: seq<Entity>)
    requires Distinct(a) && multiset(a) == multiset(b)
    ensures Distinct(b)
  {
    forall i, j | 0 <= i < j < |b| ensures b[i] != b[j] {
      if b[i] == b[j] {
        assert b == b[..i] + [b[i]] + b[i + 1..j] + [b[j]] + b[j + 1..];
        assert multiset(a)[b[i]] >= 2;
        OnceEach(a, b[i]);
      }
    }
  }

  lemma {:induction false} OnceEach(a: seq<Entity>, e: Entity)
    requires Distinct(a)
    ensures multiset(a)[e] <= 1
  {
    if a != [] {
      assert a == [a[0]] + a[1..];
      OnceEach(a[1..], e);
      if a[0] == e {
        assert e !in a[1..];
        assert multiset(a[1..])[e] == 0;
      }
    }
  }

  lemma {:induction false} StatesNamed(w: WorldState, es: seq<Entity>, players: set<Entity>)
    requires Distinct(es)
    ensures forall st <- StatesOf(w, es, players) :: st.id in es
    ensures forall i, j :: 0 <= i < j < |StatesOf(w, es, players)| ==> StatesOf(w, es, players)[i].id != StatesOf(w, es, players)[j].id
  {
    if es != [] {
      var front := es[..|es| - 1];
      assert es == front + [es[|es| - 1]];
      StatesNamed(w, front, players);
      assert es[|es| - 1] !in front;
      forall i | 0 <= i < |StatesOf(w, front, players)| ensures StatesOf(w, front, players)[i].id in front {
        assert StatesOf(w, front, players)[i] in StatesOf(w, front, players);
      }
    }
  }

  // ---------------------------------------------------------------- what is said, against the world's maps

  /** The client holds exactly the visible entities that have a position, each with the truth about it. */
  ghost predicate Shows(client: Client, w: WorldState, players: set<Entity>, visible: set<Entity>) {
    (forall e :: e in client <==> e in visible && e in w.positions) &&
    forall e <- client :: client[e].id == e && TellsTruth(client[e], w, players)
  }

  lemma ViewShows(client: Client, w: WorldState, players: set<Entity>, visible: set<Entity>)
    ensures client == ViewOf(w, players, visible) <==> Shows(client, w, players, visible)
  {
    hide TellsTruth, StateOf;
    forall e | e in client && e in w.positions
      ensures client[e] == TheState(w, e, players) <==> client[e].id == e && TellsTruth(client[e], w, players)
    {
      StateIsTruth(w, e, players, client[e]);
    }
  }

  /** One state for each of `es`, in this order: players first, ids ascending. */
  ghost predicate Reports(states: seq<EntityState>, es: set<Entity>) {
    (forall e :: e in es <==> exists i :: 0 <= i < |states| && states[i].id == e) &&
    forall i, j :: 0 <= i < j < |states| ==> AheadOf(states[i], states[j])
  }

  predicate AheadOf(a: EntityState, b: EntityState) {
    (a.isPlayer && !b.isPlayer) || (a.isPlayer == b.isPlayer && a.id < b.id)
  }

  lemma {:induction false} StatesReport(w: WorldState, es: seq<Entity>, players: set<Entity>)
    ensures (forall e <- es :: e in w.positions) ==> |StatesOf(w, es, players)| == |es|
    ensures (forall e <- es :: e in w.positions) ==>
              forall i :: 0 <= i < |es| ==> StatesOf(w, es, players)[i] == TheState(w, es[i], players)
    ensures forall st <- StatesOf(w, es, players) :: st.id in es && TellsTruth(st, w, players)
  {
    hide TellsTruth;
    if es != [] {
      var front, e := es[..|es| - 1], es[|es| - 1];
      assert es == front + [e];
      StatesReport(w, front, players);
      if e in w.positions {
        StateIsTruth(w, e, players, TheState(w, e, players));
      }
    }
  }

  lemma SortedReport(w: WorldState, es: seq<Entity>, all: set<Entity>, players: set<Entity>)
    requires Lists(es, all) && forall e <- all :: e in w.positions
    ensures var states := StatesOf(w, SortEntities(es, players), players);
            Reports(states, all) && forall st <- states :: TellsTruth(st, w, players)
  {
    var sorted := SortEntities(es, players);
    SameMembers(es, sorted);
    DistinctSorted(es, sorted);
    SortIsOrdered(es, players);
    hide SortEntities, TellsTruth, StateOf, Ordered, Reports, Distinct;
    StatesReport(w, sorted, players);
    var states := StatesOf(w, sorted, players);
    forall i | 0 <= i < |states| ensures states[i].id == sorted[i] && (states[i].isPlayer <==> sorted[i] in players) {
      StateIsTruth(w, sorted[i], players, states[i]);
      TruthNamesPlayers(states[i], w, players);
    }
    hide *;
    OrderedReport(states, sorted, all, players);
  }

  lemma OrderedReport(states: seq<EntityState>, sorted: seq<Entity>, all: set<Entity>, players: set<Entity>)
    requires Ordered(sorted, players) && Distinct(sorted) && |states| == |sorted| && forall e :: e in sorted <==> e in all
    requires forall i :: 0 <= i < |states| ==> states[i].id == sorted[i] && (states[i].isPlayer <==> sorted[i] in players)
    ensures Reports(states, all)
  {
    forall i, j | 0 <= i < j < |states| ensures AheadOf(states[i], states[j]) {
      assert sorted[i] != sorted[j];
    }
    forall e ensures e in all <==> exists i :: 0 <= i < |states| && states[i].id == e {
      if e in all {
        assert e in sorted;
        var i :| 0 <= i < |sorted| && sorted[i] == e;
        assert states[i].id == e;
      }
    }
  }

  lemma TruthNamesPlayers(st: EntityState, w: WorldState, players: set<Entity>)
    requires TellsTruth(st, w, players)
    ensures st.isPlayer <==> st.id in players
  {
  }

  /** What a round says, told from the world's maps alone: at first everything
      visible, then the visible that are marked or were not seen last time and the
      names of those no longer seen, between the two ticks; nothing when there is
      nothing to tell; and every word is true. */
  lemma RoundTells(w: WorldState, players: set<Entity>, viewer: Entity, prev: Option<set<Entity>>, cur: set<Entity>,
                   tick: nat, last: nat, sent: Option<Chunk>)
    requires Sends(w, players, viewer, prev, cur, tick, last, sent) && viewer in cur && forall e <- cur :: e in w.positions
    ensures prev.None? ==>
              (sent.Some? && sent.value.Snapshot? && sent.value.tick == tick && Reports(sent.value.entities, cur) &&
               forall st <- sent.value.entities :: TellsTruth(st, w, players))
    ensures prev.Some? && sent.Some? ==>
              (sent.value.Delta? && sent.value.tick == tick && sent.value.fromTick == last &&
               Reports(sent.value.changed, set e <- cur | e in w.dirty || e !in prev.value) &&
               (forall st <- sent.value.changed :: TellsTruth(st, w, players)) &&
               Distinct(sent.value.removed) && forall e :: e in sent.value.removed <==> e in prev.value && e !in cur)
    ensures prev.Some? ==> (sent.None? <==> prev.value == cur && forall e <- cur :: e !in w.dirty)
  {
    hide StatesOf, SortEntities, TellsTruth, Reports, Distinct;
    if prev.None? {
      var es :| Lists(es, cur) && sent == Some(Snapshot(tick, StatesOf(w, SortEntities(es, players), players)));
      SortedReport(w, es, cur, players);
    } else {
      var es, removed :| Lists(es, Changed(w, viewer, prev.value, cur)) && Lists(removed, prev.value - cur) &&
        sent == WorthSending(Delta(tick, last, StatesOf(w, SortEntities(es, players), players), removed));
      var all := set e <- cur | e in w.dirty || e !in prev.value;
      assert Changed(w, viewer, prev.value, cur) == all;
      SortedReport(w, es, all, players);
      var states := StatesOf(w, SortEntities(es, players), players);
      SilentExactly(states, all, removed, prev.value - cur);
    }
  }

  lemma SilentExactly(states: seq<EntityState>, all: set<Entity>, removed: seq<Entity>, gone: set<Entity>)
    requires Reports(states, all) && Lists(removed, gone)
    ensures |states| == 0 <==> all == {}
    ensures |removed| == 0 <==> gone == {}
  {
    if |states| > 0 {
      assert states[0].id in all;
    }
    if |removed| > 0 {
      assert removed[0] in removed;
    }
  }

  // ---------------------------------------------------------------- whole runs

  /** What may happen to the world between two rounds. Enrolling and dismissing a
      player is what joining, leaving and the handoff calls do to an entity. */
  datatype Change =
    | Create
    | Destroy(e: Entity)
    | SetPosition(e: Entity, p: Position)
    | SetVelocity(e: Entity, v: Velocity)
    | SetHealth(e: Entity, h: Health)
    | Simulate(dt: real, rate: real)
    | Enroll(e: Entity, p: Position)
    | Dismiss(e: Entity)

  datatype Server = Server(world: WorldState, players: set<Entity>)

  function After(s: Server, c: Change): Server {
    match c
    case Create => s.(world := s.world.Create())
    case Destroy(e) => s.(world := s.world.Destroy(e))
    case SetPosition(e, p) => s.(world := s.world.SetPosition(e, p))
    case SetVelocity(e, v) => s.(world := s.world.SetVelocity(e, v))
    case SetHealth(e, h) => s.(world := s.world.SetHealth(e, h))
    case Simulate(dt, rate) => s.(world := s.world.Moved(dt).Regenerated(rate, dt))
    case Enroll(e, p) => Server(s.world.SetPosition(e, p), s.players + {e})
    case Dismiss(e) => Server(s.world.Destroy(e), s.players - {e})
  }

  /** Every change marks the entities whose replicated state it changes, or takes their position. */
  lemma ChangeKeepsTracks(client: Client, s: Server, seen: set<Entity>, c: Change)
    requires Tracks(client, s.world, s.players, seen)
    ensures Tracks(client, After(s, c).world, After(s, c).players, seen)
  {
    var t := After(s, c);
    forall e <- seen | e in t.world.positions && e !in t.world.dirty
      ensures client[e] == StateOf(t.world, e, e in t.players).value
    {
      SameState(s, c, e);
    }
  }

  lemma SameState(s: Server, c: Change, e: Entity)
    requires var t := After(s, c); e in t.world.positions && e !in t.world.dirty
    ensures e in s.world.positions && e !in s.world.dirty
    ensures StateOf(After(s, c).world, e, e in After(s, c).players) == StateOf(s.world, e, e in s.players)
  {
    match c
    case Simulate(dt, rate) =>
      SameAfterStep(s.world, dt, rate, e);
    case _ =>
  }

  lemma SameAfterStep(w: WorldState, dt: real, rate: real, e: Entity)
    requires e in w.Moved(dt).Regenerated(rate, dt).positions && e !in w.Moved(dt).Regenerated(rate, dt).dirty
    ensures e in w.positions && e !in w.dirty && w.Moved(dt).Regenerated(rate, dt).positions[e] == w.positions[e]
    ensures e in w.Moved(dt).Regenerated(rate, dt).healths <==> e in w.healths
    ensures e in w.healths ==> w.Moved(dt).Regenerated(rate, dt).healths[e] == w.healths[e]
  {
  }

  /** One event of a run: a change of the world, or a round of the subscriber
      that sees `cur` and sends `sent`. */
  datatype Event = Mutate(change: Change) | Round(tick: nat, cur: set<Entity>, sent: Option<Chunk>)

  /** The server, what the subscriber remembers, and the client. */
  datatype Stream = Stream(server: Server, prev: Option<set<Entity>>, last: nat, client: Client)

  /** The viewer has a position at every round, everything seen has one, and the
      message is what the round sends. */
  ghost predicate Legal(s: Stream, viewer: Entity, ev: Event) {
    match ev
    case Mutate(_) => true
    case Round(tick, cur, sent) =>
      viewer in cur && (forall e <- cur :: e in s.server.world.positions) &&
      Sends(s.server.world, s.server.players, viewer, s.prev, cur, tick, s.last, sent)
  }

  /** The first round leaves the marks in place; every later one takes them. */
  function Next(s: Stream, ev: Event): Stream {
    match ev
    case Mutate(c) => s.(server := After(s.server, c))
    case Round(tick, cur, sent) =>
      Stream(if s.prev.None? then s.server else s.server.(world := s.server.world.(dirty := {})), Some(cur), tick, Apply(s.client, sent))
  }

  ghost predicate LegalRun(s: Stream, viewer: Entity, run: seq<Event>)
    decreases |run|
  {
    run == [] || (Legal(s, viewer, run[0]) && LegalRun(Next(s, run[0]), viewer, run[1..]))
  }

  function RunAll(s: Stream, run: seq<Event>): Stream
    decreases |run|
  {
    if run == [] then s else RunAll(Next(s, run[0]), run[1..])
  }

  ghost predicate InStep(s: Stream) {
    s.prev.Some? ==> Tracks(s.client, s.server.world, s.server.players, s.prev.value)
  }

  lemma EventKeepsInStep(s: Stream, viewer: Entity, ev: Event)
    requires InStep(s) && Legal(s, viewer, ev)
    ensures InStep(Next(s, ev))
    ensures ev.Round? ==> Next(s, ev).client == ViewOf(Next(s, ev).server.world, Next(s, ev).server.players, ev.cur)
  {
    match ev
    case Mutate(c) =>
      if s.prev.Some? {
        ChangeKeepsTracks(s.client, s.server, s.prev.value, c);
      }
    case Round(tick, cur, sent) =>
      RoundConverges(s.client, s.server.world, s.server.players, viewer, s.prev, cur, tick, s.last, sent);
      RoundTracks(s, ev);
  }

  lemma RoundTracks(s: Stream, ev: Event)
    requires ev.Round? && Apply(s.client, ev.sent) == ViewOf(s.server.world, s.server.players, ev.cur)
    requires forall e <- ev.cur :: e in s.server.world.positions
    ensures InStep(Next(s, ev)) && Next(s, ev).client == ViewOf(Next(s, ev).server.world, Next(s, ev).server.players, ev.cur)
  {
    hide Apply;
    var n := Next(s, ev);
    assert forall e <- ev.cur :: StateOf(n.server.world, e, e in n.server.players) == StateOf(s.server.world, e, e in s.server.players);
  }

  /** Over any run from the first round on, with any changes in between and with
      rounds that send nothing: after each round the client holds exactly the
      present state of what that round sees. */
  lemma {:induction false} StreamConverges(s: Stream, viewer: Entity, run: seq<Event>)
    requires InStep(s) && LegalRun(s, viewer, run)
    ensures InStep(RunAll(s, run))
    ensures run != [] && run[|run| - 1].Round? ==>
              var end := RunAll(s, run);
              end.client == ViewOf(end.server.world, end.server.players, run[|run| - 1].cur) &&
              Shows(end.client, end.server.world, end.server.players, run[|run| - 1].cur)
    decreases |run|
  {
    hide InStep, Legal, Next, ViewOf, Shows;
    if run != [] {
      EventKeepsInStep(s, viewer, run[0]);
      StreamConverges(Next(s, run[0]), viewer, run[1..]);
      if |run| == 1 {
        assert run[1..] == [];
        if run[0].Round? {
          ViewShows(Next(s, run[0]).client, Next(s, run[0]).server.world, Next(s, run[0]).server.players, run[0].cur);
        }
      } else {
        assert run[1..][|run| - 2] == run[|run| - 1];
      }
    }
  }
}
