/** Drivers that hand one player over under one token. Each may stall between its
    three calls, stop after any of them and repeat any; their calls interleave
    with each other and with everything else that goes on at the two cells. */
module Retry {
  import opened Text
  import opened Ecs
  import opened CellState
  import opened CellInvariant
  import opened Handoff
  import opened RetryCells

  /** A driver whose Prepare was answered: the payload it forwards, and whether the
      target confirmed it. `found` is history: the Prepare that payload is from. */
  datatype Driver = Driver(payload: Payload, found: Snap, accepted: bool)

  /** `last` is history: the last effective Prepare of the token. */
  datatype State = State(cells: Cells, drivers: map<nat, Driver>, last: Option<Snap>)

  datatype Event =
    | PrepareCall(driver: nat, now: nat)
    | AcceptCall(driver: nat)
    | FinalizeCall(driver: nat)
    | At(cell: string, call: Call)

  function Happen(s: State, h: Handover, ev: Event): State {
    match ev
    case PrepareCall(d, now) => if h.source in s.cells then HappenPrepare(s, h, d, now) else s
    case AcceptCall(d) => if d in s.drivers && h.target in s.cells then HappenAccept(s, h, d) else s
    case FinalizeCall(d) =>
      if d in s.drivers && s.drivers[d].accepted && h.source in s.cells
      then s.(cells := s.cells[h.source := Finalize(s.cells[h.source], h.player, h.token).0]) else s
    case At(id, call) => if id in s.cells then s.(cells := s.cells[id := Do(s.cells[id], call)]) else s
  }

  /** The driver keeps what a successful Prepare answers. */
  function HappenPrepare(s: State, h: Handover, d: nat, now: nat): State
    requires h.source in s.cells
  {
    var (c, reply) := Prepare(s.cells[h.source], h.player, h.target, h.token, now);
    var last := SnapAfter(s.cells[h.source], h, now, s.last);
    State(s.cells[h.source := c],
          if reply.ok && reply.payload.Some? && last.Some?
          then s.drivers[d := Driver(reply.payload.value, last.value, d in s.drivers && s.drivers[d].accepted)] else s.drivers,
          last)
  }

  function HappenAccept(s: State, h: Handover, d: nat): State
    requires d in s.drivers && h.target in s.cells
  {
    var (c, reply) := Accept(s.cells[h.target], Readdressed(s.drivers[d].payload, h.source, h.target, h.token));
    s.(cells := s.cells[h.target := c],
       drivers := if reply.ok && reply.entity != 0 then s.drivers[d := s.drivers[d].(accepted := true)] else s.drivers)
  }

  function Run(s: State, h: Handover, evs: seq<Event>): State
    decreases |evs|
  {
    if evs == [] then s else Run(Happen(s, h, evs[0]), h, evs[1..])
  }

  /** Drivers may call whenever they like; at the two cells the other calls leave
      the handover alone; anything may happen in other cells. */
  predicate Permitted(s: State, h: Handover, ev: Event) {
    match ev
    case PrepareCall(_, now) => now > 0
    case AcceptCall(d) => d in s.drivers ==> h.target in s.cells && RoomToArrive(s.cells[h.target], h)
    case FinalizeCall(_) => true
    case At(id, call) =>
      id in s.cells && (id == h.source ==> AtSource(h, call) && HasIds(s.cells[id], call)) &&
      (id == h.target ==> AtTarget(h, call) && HasIds(s.cells[id], call))
  }

  predicate PermittedRun(s: State, h: Handover, evs: seq<Event>)
    decreases |evs|
  {
    evs != [] ==> Permitted(s, h, evs[0]) && PermittedRun(Happen(s, h, evs[0]), h, evs[1..])
  }

  // ---------------------------------------------------------------- what every event keeps

  /** The two cells somewhere in the middle of the handover, or past it. */
  ghost predicate CellsOk(cells: Cells, h: Handover, e0: Entity, last: Option<Snap>) {
    Named(h) && h.source in cells && h.target in cells &&
    SourceOk(cells[h.source], h, e0, last) && TargetOk(cells[h.target], h) &&
    (Closed(cells[h.source], h) ==> Taken(cells[h.target], h))
  }

  /** A driver carries the player as the Prepare it was answered by found them;
      once it was told so, the target has taken the player over. */
  predicate DriverOk(d: Driver, h: Handover, e0: Entity, last: Option<Snap>, taken: bool) {
    e0 in d.found.cell.world.positions && d.payload == PayloadFor(d.found.cell, h.player, e0, h.target, h.token) &&
    (d.accepted ==> taken) &&
    last.Some? && d.found.number <= last.value.number && (d.found.number == last.value.number ==> d.found == last.value)
  }

  ghost predicate DriversOk(s: State, h: Handover, e0: Entity)
    requires h.target in s.cells
  {
    forall d <- s.drivers :: DriverOk(s.drivers[d], h, e0, s.last, Taken(s.cells[h.target], h))
  }

  ghost predicate Midway(s: State, h: Handover, e0: Entity) {
    CellsOk(s.cells, h, e0, s.last) && DriversOk(s, h, e0)
  }

  function Begin(cells: Cells): State {
    State(cells, map[], None)
  }

  /** A handover may begin: the player is registered and the token is new. */
  ghost predicate CanBegin(cells: Cells, h: Handover) {
    Named(h) && Sound(cells, h.source, h.target) && h.player in cells[h.source].playerByID &&
    h.token !in cells[h.source].preparedByTk && h.token !in cells[h.target].acceptedByTk
  }

  lemma BeginIsMidway(cells: Cells, h: Handover)
    requires CanBegin(cells, h)
    ensures Midway(Begin(cells), h, cells[h.source].playerByID[h.player])
  {
    hide Inv;
  }

  lemma SourceIsOwned(c: Cell, h: Handover, e0: Entity, snap: Option<Snap>)
    requires SourceOk(c, h, e0, snap)
    ensures Inv(c) && Owned(c, h)
  {
    hide Inv;
  }

  lemma SameTaken(c: Cell, d: Cell, h: Handover)
    requires SameArrival(c, d, h)
    ensures Taken(d, h) <==> Taken(c, h)
  {
  }

  lemma CallKeepsMidway(s: State, h: Handover, e0: Entity, ev: Event)
    requires Midway(s, h, e0) && Permitted(s, h, ev) && ev.At?
    ensures Midway(Happen(s, h, ev), h, e0)
    ensures Taken(Happen(s, h, ev).cells[h.target], h) <==> Taken(s.cells[h.target], h)
  {
    hide Inv, Do, SourceOk, TargetOk, Spared, Closed, AtSource, AtTarget, HasIds, DriverOk, Taken;
    if ev.cell == h.source {
      SourceIsOwned(s.cells[h.source], h, e0, s.last);
      CallSpares(s.cells[h.source], ev.call, h);
      SparedKeepsSource(s.cells[h.source], Do(s.cells[h.source], ev.call), h, e0, s.last);
    } else if ev.cell == h.target {
      CallSparesTarget(s.cells[h.target], ev.call, h);
      SameTaken(s.cells[h.target], Do(s.cells[h.target], ev.call), h);
    }
  }

  lemma SnapsGrow(c: Cell, h: Handover, now: nat, last: Option<Snap>, d: Driver, e0: Entity, taken: bool)
    requires DriverOk(d, h, e0, last, taken)
    ensures DriverOk(d, h, e0, SnapAfter(c, h, now, last), taken)
  {
    hide Renews, PayloadFor;
  }

  /** What a Prepare of the handover does: it is answered exactly if no other handoff
      of the player is live, with what the last effective Prepare found. */
  lemma PrepareKeepsMidway(s: State, h: Handover, e0: Entity, d: nat, now: nat)
    requires Midway(s, h, e0) && now > 0
    ensures var t := Happen(s, h, PrepareCall(d, now));
            Midway(t, h, e0) && t.cells == s.cells[h.source := t.cells[h.source]] &&
            t.last == SnapAfter(s.cells[h.source], h, now, s.last) &&
            t.cells[h.source].playerByID == s.cells[h.source].playerByID &&
            (forall x <- s.drivers :: x != d ==> x in t.drivers && t.drivers[x] == s.drivers[x]) &&
            (!OtherLive(s.cells[h.source], h, now) ==>
               (d in t.drivers && Some(t.drivers[d].found) == t.last && h.token in t.cells[h.source].preparedByTk &&
                (now - t.last.value.since <= STALE_AFTER || Closed(s.cells[h.source], h)))) &&
            (OtherLive(s.cells[h.source], h, now) ==> t.drivers == s.drivers)
  {
    hide Inv, Prepare, PayloadFor, StandsStill, OtherLive, Renews, SourceOk, TargetOk, Closed, Taken;
    PrepareStep(s.cells[h.source], h, e0, s.last, now);
    PrepareAnswers(s.cells[h.source], h, now);
    var t, taken := Happen(s, h, PrepareCall(d, now)), Taken(s.cells[h.target], h);
    forall x | x in t.drivers ensures DriverOk(t.drivers[x], h, e0, t.last, taken) {
      if x in s.drivers {
        SnapsGrow(s.cells[h.source], h, now, s.last, s.drivers[x], e0, taken);
      }
    }
    hide SnapAfter;
  }

  /** An answer carries a payload exactly if it is affirmative. */
  lemma PrepareAnswers(c: Cell, h: Handover, now: nat)
    ensures var reply := Prepare(c, h.player, h.target, h.token, now).1; reply.ok <==> reply.payload.Some?
  {
    hide PayloadFor, StalePlayers;
  }

  /** The target's entity of the player is what the source was at that Prepare. */
  predicate Arrives(found: Snap, e0: Entity, target: Cell, h: Handover) {
    e0 in found.cell.world.positions && h.player in target.playerByID &&
    Faithful(found.cell.world, e0, target.world, target.playerByID[h.player])
  }

  lemma ArrivedFaithfully(snap: Snap, h: Handover, e0: Entity, w: WorldState, e: Entity)
    requires e0 in snap.cell.world.positions
    requires ArrivedAs(w, e, Readdressed(PayloadFor(snap.cell, h.player, e0, h.target, h.token), h.source, h.target, h.token))
    ensures Faithful(snap.cell.world, e0, w, e)
  {
  }

  lemma PayloadIsOurs(snap: Snap, h: Handover, e0: Entity)
    requires e0 in snap.cell.world.positions
    ensures PayloadFor(snap.cell, h.player, e0, h.target, h.token).playerID == h.player
  {
  }

  /** What an Accept of the handover does: the first delivers what its own driver's
      Prepare found, however long ago that was; any later one changes no cell. */
  lemma AcceptKeepsMidway(s: State, h: Handover, e0: Entity, d: nat)
    requires Midway(s, h, e0) && d in s.drivers && RoomToArrive(s.cells[h.target], h)
    ensures var t := Happen(s, h, AcceptCall(d));
            Midway(t, h, e0) && t.cells == s.cells[h.target := t.cells[h.target]] && t.last == s.last &&
            t.drivers == s.drivers[d := s.drivers[d].(accepted := true)] && Taken(t.cells[h.target], h) &&
            h.player in t.cells[h.target].playerByID &&
            t.cells[h.target].playerByID == s.cells[h.target].playerByID[h.player := t.cells[h.target].acceptedByTk[h.token]] &&
            (Taken(s.cells[h.target], h) ==> t.cells == s.cells) &&
            (!Taken(s.cells[h.target], h) ==> Arrives(s.drivers[d].found, e0, t.cells[h.target], h))
  {
    hide Inv, Accept, PayloadFor, StandsStill, Faithful, ArrivedAs, SourceOk, Closed;
    var x, c := s.drivers[d], s.cells[h.target];
    assert DriverOk(x, h, e0, s.last, Taken(c, h));
    PayloadIsOurs(x.found, h, e0);
    var p := Readdressed(x.payload, h.source, h.target, h.token);
    AcceptStep(c, h, p);
    if !Taken(c, h) {
      ArrivedFaithfully(x.found, h, e0, Accept(c, p).0.world, Accept(c, p).1.entity);
    }
  }

  /** What a Finalize of the handover does, however late: with the record in place
      it is affirmative and the source lets the player go; if the record was pruned
      and not opened again it is refused and changes nothing. */
  lemma FinalizeKeepsMidway(s: State, h: Handover, e0: Entity, d: nat)
    requires Midway(s, h, e0) && d in s.drivers && s.drivers[d].accepted
    ensures var t := Happen(s, h, FinalizeCall(d));
            Midway(t, h, e0) && t.cells == s.cells[h.source := t.cells[h.source]] && t.drivers == s.drivers && t.last == s.last &&
            Taken(s.cells[h.target], h) &&
            (Finalize(s.cells[h.source], h.player, h.token).1.ok <==> h.token in s.cells[h.source].preparedByTk) &&
            (if h.token in s.cells[h.source].preparedByTk
             then Closed(t.cells[h.source], h) && t.cells[h.source].playerByID == s.cells[h.source].playerByID - {h.player}
             else t.cells == s.cells && h.player in s.cells[h.source].playerByID)
  {
    hide Inv, PayloadFor, StandsStill, TargetOk;
    var c := s.cells[h.source];
    assert DriverOk(s.drivers[d], h, e0, s.last, Taken(s.cells[h.target], h));
    if h.token in c.preparedByTk {
      FinalizeStep(c, h, e0, s.last);
      hide Finalize;
    } else {
      SourceIsOwned(c, h, e0, s.last);
      FinalizeUnknown(c, h);
      hide Finalize;
      assert s.cells[h.source := c] == s.cells;
    }
  }

  lemma FinalizeUnknown(c: Cell, h: Handover)
    requires Inv(c) && Named(h) && h.token !in c.preparedByTk
    ensures Finalize(c, h.player, h.token) == (c, Reply(false, UnknownToken, 0))
  {
    FinalizeKeeps(c, h.player, h.token);
  }

  lemma EventKeepsMidway(s: State, h: Handover, e0: Entity, ev: Event)
    requires Midway(s, h, e0) && Permitted(s, h, ev)
    ensures Midway(Happen(s, h, ev), h, e0)
  {
    MidwayCells(s, h, e0);
    hide Midway, HappenPrepare, HappenAccept, Do, Finalize, AtSource, AtTarget, HasIds, RoomToArrive;
    match ev
    case PrepareCall(d, now) => PrepareKeepsMidway(s, h, e0, d, now);
    case AcceptCall(d) => if d in s.drivers { AcceptKeepsMidway(s, h, e0, d); }
    case FinalizeCall(d) => if d in s.drivers && s.drivers[d].accepted { FinalizeKeepsMidway(s, h, e0, d); }
    case At(_, _) => CallKeepsMidway(s, h, e0, ev);
  }

  lemma MidwayCells(s: State, h: Handover, e0: Entity)
    requires Midway(s, h, e0)
    ensures h.source in s.cells && h.target in s.cells && h.source != h.target
    ensures Closed(s.cells[h.source], h) ==> Taken(s.cells[h.target], h)
  {
    hide SourceOk, TargetOk, DriverOk, Closed, Taken;
  }

  /** Whatever is permitted, in any order, keeps the handover in the middle or past it. */
  lemma {:induction false} RunKeepsMidway(s: State, h: Handover, e0: Entity, evs: seq<Event>)
    requires Midway(s, h, e0) && PermittedRun(s, h, evs)
    ensures Midway(Run(s, h, evs), h, e0)
    decreases |evs|
  {
    hide Midway, Happen, Permitted;
    if evs != [] {
      EventKeepsMidway(s, h, e0, evs[0]);
      RunKeepsMidway(Happen(s, h, evs[0]), h, e0, evs[1..]);
    }
  }

  // ---------------------------------------------------------------- what a driver keeps over a run

  /** The driver does not ask again. */
  predicate AsksNoMore(evs: seq<Event>, d: nat) {
    forall ev <- evs :: !(ev.PrepareCall? && ev.driver == d)
  }

  /** How many Prepares of the run were fresh. */
  function Renewals(s: State, h: Handover, evs: seq<Event>): nat
    decreases |evs|
  {
    if evs == [] then 0
    else
      (if evs[0].PrepareCall? && h.source in s.cells && Renews(s.cells[h.source], h, evs[0].now) then 1 else 0) +
      Renewals(Happen(s, h, evs[0]), h, evs[1..])
  }

  function Count(last: Option<Snap>): nat {
    if last.Some? then last.value.number else 0
  }

  lemma EventCarries(s: State, h: Handover, ev: Event, d: nat)
    requires !(ev.PrepareCall? && ev.driver == d)
    ensures var t := Happen(s, h, ev);
            (d in t.drivers <==> d in s.drivers) &&
            (d in s.drivers ==> (t.drivers[d] == s.drivers[d].(accepted := t.drivers[d].accepted) &&
                                 (s.drivers[d].accepted ==> t.drivers[d].accepted)))
  {
    hide Prepare, Accept, Finalize, Do, Renews;
  }

  lemma EventCounts(s: State, h: Handover, ev: Event)
    ensures Happen(s, h, ev).last ==
            if ev.PrepareCall? && h.source in s.cells then SnapAfter(s.cells[h.source], h, ev.now, s.last) else s.last
  {
    hide Prepare, Accept, Finalize, Do, SnapAfter;
  }

  lemma {:induction false} RunCarries(s: State, h: Handover, evs: seq<Event>, d: nat)
    requires AsksNoMore(evs, d)
    ensures var t := Run(s, h, evs);
            (d in t.drivers <==> d in s.drivers) &&
            (d in s.drivers ==> (t.drivers[d] == s.drivers[d].(accepted := t.drivers[d].accepted) &&
                                 (s.drivers[d].accepted ==> t.drivers[d].accepted)))
    decreases |evs|
  {
    hide Happen;
    if evs != [] {
      assert evs[0] in evs;
      EventCarries(s, h, evs[0], d);
      RunCarries(Happen(s, h, evs[0]), h, evs[1..], d);
    }
  }

  /** The last effective Prepare is still the same exactly if none was fresh. */
  lemma {:induction false} RunCounts(s: State, h: Handover, evs: seq<Event>)
    ensures Count(Run(s, h, evs).last) == Count(s.last) + Renewals(s, h, evs)
    ensures Renewals(s, h, evs) == 0 ==> Run(s, h, evs).last == s.last
    decreases |evs|
  {
    hide Happen, Renews;
    if evs != [] {
      EventCounts(s, h, evs[0]);
      RunCounts(Happen(s, h, evs[0]), h, evs[1..]);
    }
  }

  /** What the target has taken over it does not forget. */
  lemma {:induction false} RunKeepsTaken(s: State, h: Handover, e0: Entity, evs: seq<Event>)
    requires Midway(s, h, e0) && PermittedRun(s, h, evs)
    ensures h.target in s.cells && h.target in Run(s, h, evs).cells
    ensures Taken(s.cells[h.target], h) ==> Taken(Run(s, h, evs).cells[h.target], h)
    decreases |evs|
  {
    hide Midway, Happen, Permitted, Taken;
    MidwayCells(s, h, e0);
    if evs != [] {
      EventKeepsMidway(s, h, e0, evs[0]);
      EventKeepsTaken(s, h, e0, evs[0]);
      RunKeepsTaken(Happen(s, h, evs[0]), h, e0, evs[1..]);
    }
  }

  lemma EventKeepsTaken(s: State, h: Handover, e0: Entity, ev: Event)
    requires Midway(s, h, e0) && Permitted(s, h, ev)
    ensures h.target in s.cells && h.target in Happen(s, h, ev).cells
    ensures Taken(s.cells[h.target], h) ==> Taken(Happen(s, h, ev).cells[h.target], h)
  {
    MidwayCells(s, h, e0);
    hide Midway, HappenPrepare, HappenAccept, Do, Finalize, AtSource, AtTarget, HasIds, RoomToArrive, Taken;
    match ev
    case PrepareCall(d, now) => PrepareKeepsMidway(s, h, e0, d, now);
    case AcceptCall(d) => if d in s.drivers { AcceptKeepsMidway(s, h, e0, d); }
    case FinalizeCall(d) => if d in s.drivers && s.drivers[d].accepted { FinalizeKeepsMidway(s, h, e0, d); }
    case At(_, _) => CallKeepsMidway(s, h, e0, ev);
  }

  // ---------------------------------------------------------------- what arrives

  /** However long a driver stalls between its Prepare and its Accept, and whatever
      happens meanwhile: if its Accept is the first to be accepted, the target gets
      the player as that Prepare found them, at most the limit before it was asked.
      That is what the last effective Prepare found if and only if none was fresh in between. */
  lemma ArrivesAsPrepared(cells: Cells, h: Handover, before: seq<Event>, d: nat, now: nat, between: seq<Event>)
    requires CanBegin(cells, h) && PermittedRun(Begin(cells), h, before) && now > 0 && AsksNoMore(between, d)
    requires var s1 := Happen(Run(Begin(cells), h, before), h, PrepareCall(d, now));
             PermittedRun(s1, h, between) && Permitted(Run(s1, h, between), h, AcceptCall(d))
    ensures var s0 := Run(Begin(cells), h, before); var s1 := Happen(s0, h, PrepareCall(d, now));
            var s2 := Run(s1, h, between); var s3 := Happen(s2, h, AcceptCall(d));
            h.source in s0.cells && h.target in s2.cells && h.target in s3.cells &&
            (!OtherLive(s0.cells[h.source], h, now) ==>
               (d in s2.drivers && s1.last == Some(s2.drivers[d].found) &&
                (s2.last == s1.last <==> Renewals(s1, h, between) == 0) &&
                (!Taken(s2.cells[h.target], h) ==>
                   (now - s2.drivers[d].found.since <= STALE_AFTER &&
                    Arrives(s2.drivers[d].found, cells[h.source].playerByID[h.player], s3.cells[h.target], h)))))
  {
    hide *;
    var e0 := RegisteredAs(cells, h);
    var s0 := Run(Begin(cells), h, before);
    var s1 := Happen(s0, h, PrepareCall(d, now));
    var s2 := Run(s1, h, between);
    BeginIsMidway(cells, h);
    RunKeepsMidway(Begin(cells), h, e0, before);
    MidwayCells(s0, h, e0);
    PrepareKeepsMidway(s0, h, e0, d, now);
    RunKeepsMidway(s1, h, e0, between);
    MidwayCells(s2, h, e0);
    RunCarries(s1, h, between, d);
    RunCounts(s1, h, between);
    CountsDiffer(s1.last, s2.last);
    RunKeepsTaken(s1, h, e0, between);
    MidwayCells(s1, h, e0);
    assert s1.cells[h.target] == s0.cells[h.target];
    if d in s2.drivers {
      RoomGiven(s2, h, d);
      AcceptKeepsMidway(s2, h, e0, d);
    } else {
      NoAccept(s2, h, d);
    }
  }

  lemma RegisteredAs(cells: Cells, h: Handover) returns (e0: Entity)
    requires CanBegin(cells, h)
    ensures h.source in cells && h.player in cells[h.source].playerByID && e0 == cells[h.source].playerByID[h.player]
  {
    hide Inv;
    e0 := cells[h.source].playerByID[h.player];
  }

  lemma CountsDiffer(a: Option<Snap>, b: Option<Snap>)
    ensures a == b ==> Count(a) == Count(b)
  {
  }

  lemma RoomGiven(s: State, h: Handover, d: nat)
    requires Permitted(s, h, AcceptCall(d)) && d in s.drivers
    ensures h.target in s.cells && RoomToArrive(s.cells[h.target], h)
  {
    hide RoomToArrive;
  }

  lemma NoAccept(s: State, h: Handover, d: nat)
    requires d !in s.drivers
    ensures Happen(s, h, AcceptCall(d)) == s
  {
  }

  // ---------------------------------------------------------------- what a driver completes

  /** The player is only in the target, as one entity; everybody else is where they were. */
  ghost predicate Completed(before: Cells, after: Cells, h: Handover, e0: Entity) {
    h.source in before && h.target in before && Sound(after, h.source, h.target) && after.Keys == before.Keys &&
    (forall id <- before :: id != h.source && id != h.target ==> after[id] == before[id]) &&
    after[h.source].playerByID == before[h.source].playerByID - {h.player} && e0 !in after[h.source].world.alive &&
    Taken(after[h.target], h) && after[h.target].playerByID == before[h.target].playerByID[h.player := after[h.target].acceptedByTk[h.token]]
  }

  /** The source's answer to this driver's Finalize is affirmative. */
  predicate Confirmed(s: State, h: Handover, d: nat) {
    d in s.drivers && s.drivers[d].accepted && h.source in s.cells && Finalize(s.cells[h.source], h.player, h.token).1.ok
  }

  lemma FinalizeCompletes(s: State, h: Handover, e0: Entity, d: nat)
    requires Midway(s, h, e0) && d in s.drivers && s.drivers[d].accepted
    ensures h.source in s.cells && (Confirmed(s, h, d) <==> h.token in s.cells[h.source].preparedByTk)
    ensures Confirmed(s, h, d) ==> Completed(s.cells, Happen(s, h, FinalizeCall(d)).cells, h, e0)
  {
    hide *;
    FinalizeKeepsMidway(s, h, e0, d);
    MidwayCells(s, h, e0);
    ConfirmedMeans(s, h, d);
    var t := Happen(s, h, FinalizeCall(d));
    MidwayFacts(s, h, e0);
    MidwayFacts(t, h, e0);
    if h.token in s.cells[h.source].preparedByTk {
      CompletedBy(s.cells, t.cells, h, e0);
    }
  }

  lemma ConfirmedMeans(s: State, h: Handover, d: nat)
    requires d in s.drivers && s.drivers[d].accepted && h.source in s.cells
    ensures Confirmed(s, h, d) <==> Finalize(s.cells[h.source], h.player, h.token).1.ok
  {
    hide Finalize;
  }

  lemma CompletedBy(before: Cells, after: Cells, h: Handover, e0: Entity)
    requires h.source in before && h.target in before && h.source != h.target && h.source in after && after == before[h.source := after[h.source]]
    requires Sound(after, h.source, h.target) && e0 !in after[h.source].world.alive && Taken(before[h.target], h)
    requires after[h.source].playerByID == before[h.source].playerByID - {h.player}
    requires h.player in before[h.target].playerByID && before[h.target].playerByID[h.player] == before[h.target].acceptedByTk[h.token]
    ensures Completed(before, after, h, e0)
  {
    hide Sound;
    var c := before[h.target];
    assert c.playerByID == c.playerByID[h.player := c.acceptedByTk[h.token]];
  }

  lemma MidwayFacts(s: State, h: Handover, e0: Entity)
    requires Midway(s, h, e0)
    ensures Sound(s.cells, h.source, h.target) && (Closed(s.cells[h.source], h) ==> e0 !in s.cells[h.source].world.alive)
    ensures Taken(s.cells[h.target], h) ==>
              h.player in s.cells[h.target].playerByID && s.cells[h.target].playerByID[h.player] == s.cells[h.target].acceptedByTk[h.token]
  {
    hide Inv, PayloadFor, StandsStill;
  }

  /** A driver that stalls between its calls finishes the handover if and only if no
      other handoff of the player was live when it prepared, and the token's record is
      at the source when its Finalize arrives. Otherwise that Finalize changes nothing. */
  lemma StalledDriveCompletes(cells: Cells, h: Handover, before: seq<Event>, d: nat, now: nat, between: seq<Event>, later: seq<Event>)
    requires CanBegin(cells, h) && PermittedRun(Begin(cells), h, before) && now > 0
    requires AsksNoMore(before, d) && AsksNoMore(between, d) && AsksNoMore(later, d)
    requires var s1 := Happen(Run(Begin(cells), h, before), h, PrepareCall(d, now)); var s2 := Run(s1, h, between);
             PermittedRun(s1, h, between) && Permitted(s2, h, AcceptCall(d)) && PermittedRun(Happen(s2, h, AcceptCall(d)), h, later)
    ensures var s0 := Run(Begin(cells), h, before);
            var s2 := Run(Happen(s0, h, PrepareCall(d, now)), h, between);
            var s3 := Run(Happen(s2, h, AcceptCall(d)), h, later);
            h.source in s0.cells && h.source in s3.cells &&
            (Confirmed(s3, h, d) <==> !OtherLive(s0.cells[h.source], h, now) && h.token in s3.cells[h.source].preparedByTk) &&
            (if Confirmed(s3, h, d) then Completed(s3.cells, Happen(s3, h, FinalizeCall(d)).cells, h, cells[h.source].playerByID[h.player])
             else Happen(s3, h, FinalizeCall(d)).cells == s3.cells)
  {
    hide *;
    var e0 := RegisteredAs(cells, h);
    var s0 := Run(Begin(cells), h, before);
    var s1 := Happen(s0, h, PrepareCall(d, now));
    var s2 := Run(s1, h, between);
    var sa := Happen(s2, h, AcceptCall(d));
    var s3 := Run(sa, h, later);
    BeginIsMidway(cells, h);
    RunKeepsMidway(Begin(cells), h, e0, before);
    RunCarries(Begin(cells), h, before, d);
    NobodyAtFirst(cells, d);
    MidwayCells(s0, h, e0);
    PrepareKeepsMidway(s0, h, e0, d, now);
    RunKeepsMidway(s1, h, e0, between);
    RunCarries(s1, h, between, d);
    EventKeepsMidway(s2, h, e0, AcceptCall(d));
    RunKeepsMidway(sa, h, e0, later);
    RunCarries(sa, h, later, d);
    MidwayCells(s3, h, e0);
    if d in s2.drivers {
      RoomGiven(s2, h, d);
      AcceptKeepsMidway(s2, h, e0, d);
      FinalizeCompletes(s3, h, e0, d);
      FinalizeKeepsMidway(s3, h, e0, d);
    } else {
      NoAccept(s2, h, d);
      NotConfirmed(s3, h, d);
    }
  }

  lemma NobodyAtFirst(cells: Cells, d: nat)
    ensures d !in Begin(cells).drivers
  {
  }

  lemma NotConfirmed(s: State, h: Handover, d: nat)
    requires d !in s.drivers
    ensures !Confirmed(s, h, d) && Happen(s, h, FinalizeCall(d)).cells == s.cells
  {
  }

  // ---------------------------------------------------------------- one drive without a stall

  /** The calls of one drive, as far as it gets. */
  function CallsOf(now: nat, reach: Reach): seq<Event> {
    match reach
    case Nowhere => []
    case Prepared => [PrepareCall(0, now)]
    case Accepted => [PrepareCall(0, now), AcceptCall(0)]
    case Finished => [PrepareCall(0, now), AcceptCall(0), FinalizeCall(0)]
  }

  /** The driver's call on the registry is its three calls on the cells, one after the other. */
  lemma DriveIsItsCalls(s: State, h: Handover, e0: Entity, now: nat, reach: Reach)
    requires Midway(s, h, e0) && s.drivers == map[] && now > 0
    ensures var (after, outcome) := Drive(s.cells, h.source, h.target, h.player, h.token, now, reach);
            after == Run(s, h, CallsOf(now, reach)).cells &&
            (outcome.Done? ==> reach.Finished?) &&
            (reach.Finished? ==> (outcome.Done? <==> Confirmed(Run(s, h, CallsOf(now, Reach.Accepted)), h, 0)))
  {
    RunsOf(s, h, now);
    hide Inv, Prepare, Accept, Finalize, SnapAfter, SourceOk, TargetOk, Run;
    PrepareAnswers(s.cells[h.source], h, now);
    LastIsThere(s, h, e0, now);
    var s1 := Happen(s, h, PrepareCall(0, now));
    var s2 := Happen(s1, h, AcceptCall(0));
    assert s2.cells[h.source] == s1.cells[h.source];
  }

  lemma LastIsThere(s: State, h: Handover, e0: Entity, now: nat)
    requires Midway(s, h, e0) && now > 0
    ensures Prepare(s.cells[h.source], h.player, h.target, h.token, now).1.ok ==> SnapAfter(s.cells[h.source], h, now, s.last).Some?
  {
    hide Inv, Prepare, PayloadFor, TargetOk;
    PrepareStep(s.cells[h.source], h, e0, s.last, now);
  }

  lemma RunsOf(s: State, h: Handover, now: nat)
    ensures var s1 := Happen(s, h, PrepareCall(0, now)); var s2 := Happen(s1, h, AcceptCall(0));
            Run(s, h, CallsOf(now, Nowhere)) == s && Run(s, h, CallsOf(now, Reach.Prepared)) == s1 &&
            Run(s, h, CallsOf(now, Reach.Accepted)) == s2 && Run(s, h, CallsOf(now, Finished)) == Happen(s2, h, FinalizeCall(0))
  {
    hide Happen;
    var p, a, f := PrepareCall(0, now), AcceptCall(0), FinalizeCall(0);
    var s1, s2 := Happen(s, h, p), Happen(Happen(s, h, p), h, a);
    FirstEvent(s, h, p, []);
    FirstEvent(s, h, p, [a]);
    FirstEvent(s1, h, a, []);
    FirstEvent(s, h, p, [a, f]);
    FirstEvent(s1, h, a, [f]);
    FirstEvent(s2, h, f, []);
    assert [p] + [] == [p] && [p] + [a] == [p, a] && [a] + [] == [a] && [p] + [a, f] == [p, a, f] && [a] + [f] == [a, f] && [f] + [] == [f];
  }

  lemma FirstEvent(s: State, h: Handover, ev: Event, evs: seq<Event>)
    ensures Run(s, h, [ev] + evs) == Run(Happen(s, h, ev), h, evs)
    ensures Run(s, h, []) == s
  {
    assert ([ev] + evs)[1..] == evs;
    hide Happen;
  }

  /** Whatever drivers under this token and everybody else have done: the next drive
      that does not stall completes, with the player only in the target, if and only
      if no other handoff of the player is live at the source by then. */
  lemma RetryCompletes(cells: Cells, h: Handover, evs: seq<Event>, now: nat)
    requires CanBegin(cells, h) && PermittedRun(Begin(cells), h, evs) && now > 0
    requires var s := Run(Begin(cells), h, evs); h.target in s.cells ==> RoomToArrive(s.cells[h.target], h)
    ensures var before := Run(Begin(cells), h, evs).cells;
            var (after, outcome) := Drive(before, h.source, h.target, h.player, h.token, now, Finished);
            h.source in before && (outcome.Done? <==> !OtherLive(before[h.source], h, now)) &&
            (outcome.Done? ==> Completed(before, after, h, cells[h.source].playerByID[h.player]))
  {
    hide *;
    var e0 := RegisteredAs(cells, h);
    var s := Run(Begin(cells), h, evs);
    BeginIsMidway(cells, h);
    RunKeepsMidway(Begin(cells), h, e0, evs);
    var u := Alone(s, h, e0);
    MidwayCells(u, h, e0);
    DriveIsItsCalls(u, h, e0, now, Finished);
    RunsOf(u, h, now);
    PrepareKeepsMidway(u, h, e0, 0, now);
    var s1 := Happen(u, h, PrepareCall(0, now));
    if 0 in s1.drivers {
      AcceptKeepsMidway(s1, h, e0, 0);
      var s2 := Happen(s1, h, AcceptCall(0));
      FinalizeCompletes(s2, h, e0, 0);
      CompletedFrom(u, s1, s2, h, e0);
    } else {
      NoAccept(s1, h, 0);
      NotConfirmed(s1, h, 0);
    }
  }

  lemma Alone(s: State, h: Handover, e0: Entity) returns (u: State)
    requires Midway(s, h, e0)
    ensures Midway(u, h, e0) && u.cells == s.cells && u.drivers == map[]
  {
    hide SourceOk, TargetOk;
    u := s.(drivers := map[]);
  }

  lemma CompletedFrom(u: State, s1: State, s2: State, h: Handover, e0: Entity)
    requires h.source in u.cells && h.target in u.cells && h.source != h.target
    requires h.source in s1.cells && s1.cells == u.cells[h.source := s1.cells[h.source]] && s1.cells[h.source].playerByID == u.cells[h.source].playerByID
    requires h.target in s2.cells && s2.cells == s1.cells[h.target := s2.cells[h.target]] && Taken(s2.cells[h.target], h)
    requires s2.cells[h.target].playerByID == s1.cells[h.target].playerByID[h.player := s2.cells[h.target].acceptedByTk[h.token]]
    ensures var t := Happen(s2, h, FinalizeCall(0)); Completed(s2.cells, t.cells, h, e0) ==> Completed(u.cells, t.cells, h, e0)
  {
    hide Inv, Finalize;
  }

  // ---------------------------------------------------------------- how long a Prepare counts

  /** The time at which the event prepares something, if it does. */
  predicate By(ev: Event, now: nat) {
    match ev
    case PrepareCall(_, t) => t <= now
    case At(_, Prepares(_, _, _, t)) => t <= now
    case _ => true
  }

  predicate AllBy(evs: seq<Event>, now: nat) {
    forall ev <- evs :: By(ev, now)
  }

  lemma FinalizeKeepsTokens(c: Cell, pid: string, tok: string, t: string)
    requires t in c.preparedByTk
    ensures t in Finalize(c, pid, tok).0.preparedByTk
  {
    hide WorldState.Destroy;
  }

  /** A repeated Prepare within the limit leaves the record there and is not fresh. */
  lemma PrepareRepeats(c: Cell, h: Handover, now: nat)
    requires Inv(c) && Named(h) && now > 0 && h.token in c.preparedByTk
    requires c.preparedByTk[h.token].finalized || now - c.preparedByTk[h.token].createdAt <= STALE_AFTER
    ensures !Renews(c, h, now) && h.token in Prepare(c, h.player, h.target, h.token, now).0.preparedByTk
  {
    PruneKeeps(c, now);
    PrepareOf(c, h, now);
    hide Prune, Prepare, Inv;
  }

  /** An event within the limit leaves the token's record there and prepares nothing afresh. */
  lemma RecordStays(s: State, h: Handover, e0: Entity, first: Snap, ev: Event)
    requires Midway(s, h, e0) && Permitted(s, h, ev) && By(ev, first.since + STALE_AFTER) && s.last == Some(first)
    requires h.token in s.cells[h.source].preparedByTk
    ensures Happen(s, h, ev).last == Some(first)
    ensures h.source in Happen(s, h, ev).cells && h.token in Happen(s, h, ev).cells[h.source].preparedByTk
  {
    var c := s.cells[h.source];
    RecordOfLast(c, h, e0, first);
    SourceIsOwned(c, h, e0, s.last);
    hide Inv, Prepare, Accept, Finalize, PayloadFor, StandsStill, Do, AtSource, AtTarget, HasIds, Spared, SourceOk, TargetOk, Renews, DriverOk;
    match ev
    case PrepareCall(_, now) => PrepareRepeats(c, h, now);
    case AcceptCall(_) =>
    case FinalizeCall(_) => FinalizeKeepsTokens(c, h.player, h.token, h.token);
    case At(id, call) =>
      if id == h.source {
        assert InTime(c, call, h);
        CallSpares(c, call, h);
      }
  }

  lemma RecordOfLast(c: Cell, h: Handover, e0: Entity, last: Snap)
    requires SourceOk(c, h, e0, Some(last)) && h.token in c.preparedByTk
    ensures c.preparedByTk[h.token].createdAt == last.since
    ensures !Closed(c, h) ==>
              (Open(c, h) && e0 in last.cell.world.positions && c.playerByID[h.player] == e0 && StandsStill(c, h.player, last.cell.world.positions[e0]))
  {
    hide Inv, PayloadFor, StandsStill;
  }

  lemma {:induction false} PrepareStays(s: State, h: Handover, e0: Entity, first: Snap, evs: seq<Event>)
    requires Midway(s, h, e0) && PermittedRun(s, h, evs) && AllBy(evs, first.since + STALE_AFTER) && s.last == Some(first)
    requires h.token in s.cells[h.source].preparedByTk
    ensures Run(s, h, evs).last == Some(first)
    ensures h.source in Run(s, h, evs).cells && h.token in Run(s, h, evs).cells[h.source].preparedByTk
    decreases |evs|
  {
    if evs != [] {
      hide SourceOk, TargetOk, DriverOk, Happen, Permitted, By;
      assert evs[0] in evs;
      RecordStays(s, h, e0, first, evs[0]);
      EventKeepsMidway(s, h, e0, evs[0]);
      PrepareStays(Happen(s, h, evs[0]), h, e0, first, evs[1..]);
    }
  }

  /** Another Prepare at the source that comes too late for the record opened at `since`. */
  predicate Prunes(ev: Event, source: string, since: nat) {
    ev.At? && ev.cell == source && ev.call.Prepares? && ev.call.player != "" && ev.call.target != "" && ev.call.token != "" &&
    ev.call.now - since > STALE_AFTER
  }

  /** Between the handover's own calls an open record is lost exactly by such a Prepare. */
  lemma {:induction false} RecordSurvives(s: State, h: Handover, e0: Entity, evs: seq<Event>)
    requires Midway(s, h, e0) && PermittedRun(s, h, evs) && forall ev <- evs :: ev.At? || ev.AcceptCall?
    requires h.source in s.cells && Open(s.cells[h.source], h)
    ensures h.source in Run(s, h, evs).cells
    ensures h.token in Run(s, h, evs).cells[h.source].preparedByTk <==>
              forall ev <- evs :: !Prunes(ev, h.source, s.cells[h.source].preparedByTk[h.token].createdAt)
    decreases |evs|
  {
    hide Midway, Happen, Permitted, Prunes;
    if evs != [] {
      assert evs[0] in evs && forall ev <- evs[1..] :: ev in evs;
      var t := Happen(s, h, evs[0]);
      EventKeepsMidway(s, h, e0, evs[0]);
      EventPrunes(s, h, e0, evs[0]);
      MidwayCells(t, h, e0);
      if h.token in t.cells[h.source].preparedByTk {
        RecordSurvives(t, h, e0, evs[1..]);
        assert forall ev <- evs :: ev == evs[0] || ev in evs[1..];
      } else {
        RecordStaysLost(t, h, e0, evs[1..]);
      }
    }
  }

  lemma EventPrunes(s: State, h: Handover, e0: Entity, ev: Event)
    requires Midway(s, h, e0) && Permitted(s, h, ev) && (ev.At? || ev.AcceptCall?) && h.source in s.cells && Open(s.cells[h.source], h)
    ensures var t := Happen(s, h, ev);
            h.source in t.cells &&
            (h.token in t.cells[h.source].preparedByTk <==> !Prunes(ev, h.source, s.cells[h.source].preparedByTk[h.token].createdAt)) &&
            (h.token in t.cells[h.source].preparedByTk ==>
               (t.cells[h.source].preparedByTk[h.token] == s.cells[h.source].preparedByTk[h.token] && Open(t.cells[h.source], h)))
  {
    var c := s.cells[h.source];
    SourceIsOwned(c, h, e0, s.last);
    hide Inv, Accept, Do, AtSource, AtTarget, HasIds, SourceOk, TargetOk, DriverOk;
    if ev.At? && ev.cell == h.source {
      CallPrunes(c, ev.call, h);
    }
  }

  /** Another call at the source loses an open record exactly if it is a Prepare past the record's time. */
  lemma CallPrunes(c: Cell, call: Call, h: Handover)
    requires Inv(c) && Owned(c, h) && Open(c, h) && AtSource(h, call) && HasIds(c, call)
    ensures h.token in Do(c, call).preparedByTk <==>
              !(call.Prepares? && call.player != "" && call.target != "" && call.token != "" &&
                call.now - c.preparedByTk[h.token].createdAt > STALE_AFTER)
    ensures h.token in Do(c, call).preparedByTk ==> Do(c, call).preparedByTk[h.token] == c.preparedByTk[h.token]
  {
    CallSpares(c, call, h);
    hide Inv, Do, HasIds, IdsOnlyGrow, StillStands;
    if !InTime(c, call, h) {
      LatePrepare(c, call, h);
    }
  }

  lemma LatePrepare(c: Cell, call: Call, h: Handover)
    requires Inv(c) && Open(c, h) && call.Prepares? && call.token != h.token && call.now - c.preparedByTk[h.token].createdAt > STALE_AFTER
    ensures h.token in Do(c, call).preparedByTk <==> call.player == "" || call.target == "" || call.token == ""
  {
    PruneKeeps(c, call.now);
    if call.token !in Prune(c, call.now).preparedByTk {
      FreshAdds(Prune(c, call.now), call.player, call.target, call.token, call.now, h.token);
    }
    hide Prune, PrepareFresh, Inv;
  }

  lemma FreshAdds(c: Cell, p: string, target: string, tok: string, now: nat, t: string)
    requires tok !in c.preparedByTk && t != tok && t !in c.preparedByTk
    ensures t !in PrepareFresh(c, p, target, tok, now).0.preparedByTk
  {
    hide PayloadFor;
  }

  lemma {:induction false} RecordStaysLost(s: State, h: Handover, e0: Entity, evs: seq<Event>)
    requires Midway(s, h, e0) && PermittedRun(s, h, evs) && forall ev <- evs :: ev.At? || ev.AcceptCall?
    requires h.source in s.cells && h.token !in s.cells[h.source].preparedByTk
    ensures h.source in Run(s, h, evs).cells && h.token !in Run(s, h, evs).cells[h.source].preparedByTk
    decreases |evs|
  {
    hide Midway, Happen, Permitted;
    if evs != [] {
      assert evs[0] in evs && forall ev <- evs[1..] :: ev in evs;
      EventKeepsMidway(s, h, e0, evs[0]);
      EventOpensNothing(s, h, e0, evs[0]);
      RecordStaysLost(Happen(s, h, evs[0]), h, e0, evs[1..]);
    }
  }

  lemma EventOpensNothing(s: State, h: Handover, e0: Entity, ev: Event)
    requires Midway(s, h, e0) && Permitted(s, h, ev) && (ev.At? || ev.AcceptCall?) && h.source in s.cells && h.token !in s.cells[h.source].preparedByTk
    ensures h.source in Happen(s, h, ev).cells && h.token !in Happen(s, h, ev).cells[h.source].preparedByTk
  {
    SourceIsOwned(s.cells[h.source], h, e0, s.last);
    hide Inv, Accept, Do, AtSource, AtTarget, HasIds, SourceOk, TargetOk, DriverOk, IdsOnlyGrow, StillStands;
    if ev.At? && ev.cell == h.source {
      CallSpares(s.cells[h.source], ev.call, h);
    }
  }

  // ---------------------------------------------------------------- what a retry finds

  /** A first drive may go ahead at once. */
  ghost predicate Starts(cells: Cells, h: Handover) {
    CanBegin(cells, h) && h.player !in cells[h.source].frozen
  }

  /** The first driver's Prepare opens the record. */
  lemma FirstPrepare(cells: Cells, h: Handover, d: nat, since: nat)
    requires Starts(cells, h) && since > 0
    ensures var s, first := Happen(Begin(cells), h, PrepareCall(d, since)), Snap(1, cells[h.source], since);
            s.last == Some(first) && d in s.drivers && s.drivers[d].found == first && s.cells == cells[h.source := s.cells[h.source]] &&
            Midway(s, h, cells[h.source].playerByID[h.player]) && h.token in s.cells[h.source].preparedByTk
  {
    hide Inv, Prepare, PayloadFor, StandsStill, SourceOk, TargetOk, Midway, HappenPrepare;
    var c := cells[h.source];
    BeginIsMidway(cells, h);
    FrozenMeansOpen(c, h.player, since);
    PruneOnly(c, h, since);
    PrepareKeepsMidway(Begin(cells), h, c.playerByID[h.player], d, since);
  }

  lemma PruneOnly(c: Cell, h: Handover, now: nat)
    ensures h.player in Prune(c, now).frozen ==> h.player in c.frozen
    ensures h.token in Prune(c, now).preparedByTk ==> h.token in c.preparedByTk
  {
  }

  /** The player is found where they were first, with their velocity if it is `kept` or they stood still. */
  predicate SamePlace(first: Snap, found: Snap, e0: Entity, kept: bool) {
    var v, w := first.cell.world, found.cell.world;
    e0 in v.positions && e0 in w.positions && w.positions[e0] == v.positions[e0] &&
    (w.VelocityOrStill(e0) == v.VelocityOrStill(e0) <==> v.VelocityOrStill(e0) == STILL || kept)
  }

  /** A driver prepares at `since`, and whatever is permitted follows. Until the
      target has the player, another driver that prepares at `now` under the same
      token is answered from that first Prepare if and only if it comes within the
      limit. If the record is still that first one, the player has not moved, and
      only their velocity is lost, exactly when the limit has passed and they were moving. */
  lemma RetryKeepsMomentum(cells: Cells, h: Handover, d1: nat, since: nat, evs: seq<Event>, d2: nat, now: nat)
    requires Starts(cells, h) && 0 < since <= now && AllBy(evs, now)
    requires PermittedRun(Happen(Begin(cells), h, PrepareCall(d1, since)), h, evs)
    ensures var first, e0 := Snap(1, cells[h.source], since), cells[h.source].playerByID[h.player];
            var s := Run(Happen(Begin(cells), h, PrepareCall(d1, since)), h, evs);
            var t := Happen(s, h, PrepareCall(d2, now));
            h.source in s.cells && h.target in s.cells &&
            (!OtherLive(s.cells[h.source], h, now) && !Taken(s.cells[h.target], h) ==>
               (d2 in t.drivers && (t.drivers[d2].found == first <==> now - since <= STALE_AFTER) &&
                (s.last == Some(first) && h.token in s.cells[h.source].preparedByTk ==>
                   SamePlace(first, t.drivers[d2].found, e0, now - since <= STALE_AFTER))))
  {
    hide *;
    var e0 := StartsAs(cells, h);
    var first := Snap(1, cells[h.source], since);
    var s1 := Happen(Begin(cells), h, PrepareCall(d1, since));
    var s := Run(s1, h, evs);
    FirstPrepare(cells, h, d1, since);
    RunKeepsMidway(s1, h, e0, evs);
    MidwayCells(s, h, e0);
    if now - since <= STALE_AFTER {
      Later(evs, now, since + STALE_AFTER);
      PrepareStays(s1, h, e0, first, evs);
    }
    if !Taken(s.cells[h.target], h) {
      NextFinds(s, h, e0, first, d2, now);
    }
  }

  lemma StartsAs(cells: Cells, h: Handover) returns (e0: Entity)
    requires Starts(cells, h)
    ensures h.source in cells && h.player in cells[h.source].playerByID && e0 == cells[h.source].playerByID[h.player]
  {
    e0 := RegisteredAs(cells, h);
  }

  lemma Later(evs: seq<Event>, now: nat, later: nat)
    requires AllBy(evs, now) && now <= later
    ensures AllBy(evs, later)
  {
  }

  lemma NextFinds(s: State, h: Handover, e0: Entity, first: Snap, d: nat, now: nat)
    requires Midway(s, h, e0) && first.since <= now && now > 0 && !Taken(s.cells[h.target], h)
    requires now - first.since <= STALE_AFTER ==> s.last == Some(first) && h.token in s.cells[h.source].preparedByTk
    ensures var t := Happen(s, h, PrepareCall(d, now));
            !OtherLive(s.cells[h.source], h, now) ==>
              (d in t.drivers && (t.drivers[d].found == first <==> now - first.since <= STALE_AFTER) &&
               (s.last == Some(first) && h.token in s.cells[h.source].preparedByTk ==>
                  SamePlace(first, t.drivers[d].found, e0, now - first.since <= STALE_AFTER)))
  {
    hide *;
    MidwayCells(s, h, e0);
    var c := s.cells[h.source];
    PrepareKeepsMidway(s, h, e0, d, now);
    if s.last == Some(first) && h.token in c.preparedByTk {
      SecondSnap(s, h, e0, first, now);
      SourceStands(s, h, e0, first);
      FoundStanding(c, first, if now - first.since <= STALE_AFTER then first else Snap(first.number + 1, c, now), h, e0, now);
    }
  }

  lemma SourceStands(s: State, h: Handover, e0: Entity, first: Snap)
    requires Midway(s, h, e0) && s.last == Some(first) && h.token in s.cells[h.source].preparedByTk && !Closed(s.cells[h.source], h)
    ensures var c := s.cells[h.source];
            e0 in first.cell.world.positions && h.player in c.playerByID && c.playerByID[h.player] == e0 &&
            StandsStill(c, h.player, first.cell.world.positions[e0])
  {
    hide Inv, PayloadFor, StandsStill, TargetOk, DriverOk, Prune, Prepare;
    SourceFacts(s.cells[h.source], h, e0, s.last, 1);
  }

  /** An open record is renewed exactly when it is too old; till then the player stands still. */
  lemma SourceFacts(c: Cell, h: Handover, e0: Entity, last: Option<Snap>, now: nat)
    requires SourceOk(c, h, e0, last)
    ensures h.token in c.preparedByTk && !Closed(c, h) ==>
              (last.Some? && e0 in last.value.cell.world.positions && h.player in c.playerByID && c.playerByID[h.player] == e0 &&
               StandsStill(c, h.player, last.value.cell.world.positions[e0]))
    ensures h.token in c.preparedByTk && last.Some? && now - last.value.since <= STALE_AFTER ==> !Renews(c, h, now)
  {
    PruneKeeps(c, now);
    hide Inv, Prune, Prepare, StandsStill, PayloadFor;
  }

  lemma FoundStanding(c: Cell, first: Snap, found: Snap, h: Handover, e0: Entity, now: nat)
    requires e0 in first.cell.world.positions && h.player in c.playerByID && c.playerByID[h.player] == e0
    requires StandsStill(c, h.player, first.cell.world.positions[e0])
    requires found == if now - first.since <= STALE_AFTER then first else Snap(first.number + 1, c, now)
    ensures SamePlace(first, found, e0, now - first.since <= STALE_AFTER)
  {
  }

  // ---------------------------------------------------------------- a driver that stalls before its Accept

  /** Two drivers prepare a standing-by player, at `since` and at `now`, and the first
      one's Accept lands: it delivers what the first Prepare found, which is also what
      the last effective one found exactly if that came within the limit or the player stood still. */
  lemma LateAcceptDelivers(cells: Cells, h: Handover, d1: nat, since: nat, d2: nat, now: nat)
    requires Starts(cells, h) && 0 < since <= now && d1 != d2 && RoomToArrive(cells[h.target], h)
    ensures var first, e0 := Snap(1, cells[h.source], since), cells[h.source].playerByID[h.player];
            var s2 := Happen(Happen(Begin(cells), h, PrepareCall(d1, since)), h, PrepareCall(d2, now));
            var s3 := Happen(s2, h, AcceptCall(d1));
            h.target in s3.cells && s2.last.Some? && e0 in cells[h.source].world.positions &&
            Arrives(first, e0, s3.cells[h.target], h) &&
            (Arrives(s2.last.value, e0, s3.cells[h.target], h) <==>
               now - since <= STALE_AFTER || cells[h.source].world.VelocityOrStill(e0) == STILL)
  {
    hide *;
    var e0 := StartsAs(cells, h);
    var first := Snap(1, cells[h.source], since);
    var s1 := Happen(Begin(cells), h, PrepareCall(d1, since));
    var s2 := Happen(s1, h, PrepareCall(d2, now));
    FirstPrepare(cells, h, d1, since);
    FirstWorld(cells, h, d1, since);
    MidwayCells(s1, h, e0);
    PrepareKeepsMidway(s1, h, e0, d2, now);
    SecondSnap(s1, h, e0, first, now);
    MidwayCells(s2, h, e0);
    AcceptKeepsMidway(s2, h, e0, d1);
    SameFaith(first, s2.last.value, e0, Happen(s2, h, AcceptCall(d1)).cells[h.target], h);
  }

  lemma FirstWorld(cells: Cells, h: Handover, d: nat, since: nat)
    requires Starts(cells, h) && since > 0
    ensures var e0, s := cells[h.source].playerByID[h.player], Happen(Begin(cells), h, PrepareCall(d, since));
            h.source in s.cells && s.cells[h.source].world == cells[h.source].world.SetVelocity(e0, STILL) &&
            e0 in cells[h.source].world.positions && !Taken(cells[h.target], h)
  {
    hide Inv, Prepare;
    PrepareFirst(cells[h.source], h.player, h.target, h.token, since);
    RegisteredIsPositioned(cells[h.source], h.player);
  }

  lemma SecondSnap(s: State, h: Handover, e0: Entity, first: Snap, now: nat)
    requires Midway(s, h, e0) && now > 0 && s.last == Some(first) && !Taken(s.cells[h.target], h) && h.token in s.cells[h.source].preparedByTk
    ensures SnapAfter(s.cells[h.source], h, now, s.last) ==
            Some(if now - first.since <= STALE_AFTER then first else Snap(first.number + 1, s.cells[h.source], now))
  {
    var c := s.cells[h.source];
    SourceFacts(c, h, e0, s.last, now);
    forall t | t in c.preparedByTk && t != h.token ensures !HasOpenRecord(c, h.player, t) {
      RecordIsOnly(c, h, e0, t);
    }
    hide Inv, PayloadFor, StandsStill, Renews;
    PrepareStep(c, h, e0, s.last, now);
  }

  /** Faithful to the player as they were found first is faithful to them as they
      were found later exactly if that is the same, or they stood still from the start. */
  lemma SameFaith(first: Snap, last: Snap, e0: Entity, target: Cell, h: Handover)
    requires Arrives(first, e0, target, h)
    requires last == first || last.cell.world == first.cell.world.SetVelocity(e0, STILL)
    ensures Arrives(last, e0, target, h) <==> last == first || first.cell.world.VelocityOrStill(e0) == STILL
  {
  }

  const MOVER := ApplyInput(Join(EmptyCell("a"), "p").0, "p", Velocity(1.0, 0.0, 0.0)).0

  /** So a driver that stalls too long can deliver a player other than the last
      effective Prepare found them, and than they are by then. */
  lemma StalledDriverDeliversOld()
    ensures exists cells, h, e0, now ::
              Starts(cells, h) && now > 0 &&
              var s2 := Happen(Happen(Begin(cells), h, PrepareCall(1, 1)), h, PrepareCall(2, now));
              var s3 := Happen(s2, h, AcceptCall(1));
              h.target in s3.cells && s2.last.Some? && Taken(s3.cells[h.target], h) && !Arrives(s2.last.value, e0, s3.cells[h.target], h)
  {
    var cells: Cells := map["a" := MOVER, "b" := EmptyCell("b")];
    var h := Handover("a", "b", "p", "t");
    var now: nat := STALE_AFTER + 2;
    MoverStarts();
    LateAcceptDelivers(cells, h, 1, 1, 2, now);
    hide *;
    var s1 := Happen(Begin(cells), h, PrepareCall(1, 1));
    FirstPrepare(cells, h, 1, 1);
    PrepareKeepsMidway(s1, h, 1, 2, now);
    AcceptKeepsMidway(Happen(s1, h, PrepareCall(2, now)), h, 1, 1) by {
      StillRoom(cells, h, 1, 1, 2, now);
    }
  }

  lemma MoverStarts()
    ensures Starts(map["a" := MOVER, "b" := EmptyCell("b")], Handover("a", "b", "p", "t"))
    ensures MOVER.playerByID["p"] == 1 && MOVER.world.VelocityOrStill(1) != STILL && EmptyCell("b").world.HasRoom()
  {
    EmptyCellInv("a");
    EmptyCellInv("b");
    JoinKeeps(EmptyCell("a"), "p");
    InputKeeps(Join(EmptyCell("a"), "p").0, "p", Velocity(1.0, 0.0, 0.0));
    hide Inv;
  }

  lemma StillRoom(cells: Cells, h: Handover, d1: nat, since: nat, d2: nat, now: nat)
    requires Starts(cells, h) && 0 < since && now > 0 && RoomToArrive(cells[h.target], h)
    ensures var s2 := Happen(Happen(Begin(cells), h, PrepareCall(d1, since)), h, PrepareCall(d2, now));
            h.target in s2.cells && s2.cells[h.target] == cells[h.target] && RoomToArrive(s2.cells[h.target], h)
  {
    hide Inv, Prepare, SnapAfter;
  }
}
