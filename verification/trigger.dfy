/** Enter and exit events of sensors in trigger zones. */
module Trigger {
  import opened Ecs

  datatype Pair = Pair(zone: Entity, sensor: Entity)

  datatype EventKind = Enter | Exit

  datatype TriggerEvent = TriggerEvent(kind: EventKind, zone: Entity, zoneID: string, sensor: Entity)

  function Abs(x: real): real {
    if x < 0.0 then -x else x
  }

  predicate OverlapsAABB(a: Position, z: TriggerZone, b: Position, s: TriggerSensor) {
    Abs(a.x - b.x) <= z.halfX + s.halfX && Abs(a.y - b.y) <= z.halfY + s.halfY && Abs(a.z - b.z) <= z.halfZ + s.halfZ
  }

  /** The point lies in the closed box around `c`. */
  predicate InBox(p: Position, c: Position, halfX: real, halfY: real, halfZ: real) {
    c.x - halfX <= p.x <= c.x + halfX && c.y - halfY <= p.y <= c.y + halfY && c.z - halfZ <= p.z <= c.z + halfZ
  }

  predicate Shared(p: Position, a: Position, z: TriggerZone, b: Position, s: TriggerSensor) {
    InBox(p, a, z.halfX, z.halfY, z.halfZ) && InBox(p, b, s.halfX, s.halfY, s.halfZ)
  }

  /** The greater of the two lower ends: in both intervals if anything is. */
  function Meeting(a: real, h: real, b: real, k: real): real {
    if a - h >= b - k then a - h else b - k
  }

  /** Zone and sensor overlap exactly when their closed boxes have a point in common. */
  lemma OverlapIsSharedPoint(a: Position, z: TriggerZone, b: Position, s: TriggerSensor)
    requires z.halfX >= 0.0 && z.halfY >= 0.0 && z.halfZ >= 0.0 && s.halfX >= 0.0 && s.halfY >= 0.0 && s.halfZ >= 0.0
    ensures OverlapsAABB(a, z, b, s) <==> exists p :: Shared(p, a, z, b, s)
  {
    if OverlapsAABB(a, z, b, s) {
      assert Shared(Position(Meeting(a.x, z.halfX, b.x, s.halfX), Meeting(a.y, z.halfY, b.y, s.halfY), Meeting(a.z, z.halfZ, b.z, s.halfZ)), a, z, b, s);
    }
  }

  predicate IsZone(w: WorldState, e: Entity) {
    e in w.alive && e in w.positions && e in w.zones
  }

  predicate IsSensor(w: WorldState, e: Entity) {
    e in w.alive && e in w.positions && e in w.sensors
  }

  /** The pairs that overlap now; touching counts. */
  function Overlapping(w: WorldState): set<Pair> {
    set z <- w.alive, s <- w.alive | IsZone(w, z) && IsSensor(w, s) && OverlapsAABB(w.positions[z], w.zones[z], w.positions[s], w.sensors[s]) :: Pair(z, s)
  }

  /** Said of living, positioned zones and sensors: they are paired exactly if their boxes have a point in common. */
  lemma PairedExactly(w: WorldState, z: Entity, s: Entity)
    requires z in w.positions && z in w.zones && s in w.positions && s in w.sensors
    requires w.zones[z].halfX >= 0.0 && w.zones[z].halfY >= 0.0 && w.zones[z].halfZ >= 0.0
    requires w.sensors[s].halfX >= 0.0 && w.sensors[s].halfY >= 0.0 && w.sensors[s].halfZ >= 0.0
    ensures Pair(z, s) in Overlapping(w) <==>
              z in w.alive && s in w.alive && exists p :: Shared(p, w.positions[z], w.zones[z], w.positions[s], w.sensors[s])
  {
    OverlapIsSharedPoint(w.positions[z], w.zones[z], w.positions[s], w.sensors[s]);
    hide OverlapsAABB, Shared;
  }

  function PairOf(ev: TriggerEvent): Pair {
    Pair(ev.zone, ev.sensor)
  }

  /** The events of one pair, in order. */
  function LogOf(log: seq<TriggerEvent>, p: Pair): seq<EventKind> {
    if log == [] then []
    else
      var front := LogOf(log[..|log| - 1], p);
      if PairOf(log[|log| - 1]) == p then front + [log[|log| - 1].kind] else front
  }

  /** Starts with an entry and alternates; open exactly when the last was an entry. */
  predicate Alternates(kinds: seq<EventKind>) {
    forall i :: 0 <= i < |kinds| ==> kinds[i] == if i % 2 == 0 then Enter else Exit
  }

  predicate Inside(kinds: seq<EventKind>) {
    kinds != [] && kinds[|kinds| - 1] == Enter
  }

  predicate WellLogged(log: seq<TriggerEvent>, active: set<Pair>, p: Pair) {
    Alternates(LogOf(log, p)) && (p in active <==> Inside(LogOf(log, p)))
  }

  /** `evs` has one event of the kind for each of the pairs and no other. */
  ghost predicate Announces(evs: seq<TriggerEvent>, kind: EventKind, pairs: set<Pair>) {
    (forall i :: 0 <= i < |evs| ==> evs[i].kind == kind && PairOf(evs[i]) in pairs) &&
    (forall p <- pairs :: exists i :: 0 <= i < |evs| && PairOf(evs[i]) == p) &&
    (forall i, j :: 0 <= i < j < |evs| ==> PairOf(evs[i]) != PairOf(evs[j]))
  }

  /** The zone's name as it is now; a zone that is gone has none. */
  function ZoneName(w: WorldState, zone: Entity): string {
    if zone in w.zones then w.zones[zone].id else ""
  }

  lemma {:induction false} LogOfConcat(a: seq<TriggerEvent>, b: seq<TriggerEvent>, p: Pair)
    ensures LogOf(a + b, p) == LogOf(a, p) + LogOf(b, p)
  {
    if b == [] {
      assert a + b == a;
    } else {
      assert (a + b)[..|a + b| - 1] == a + b[..|b| - 1];
      LogOfConcat(a, b[..|b| - 1], p);
    }
  }

  lemma {:induction false} LogOfOthers(evs: seq<TriggerEvent>, p: Pair)
    requires forall i :: 0 <= i < |evs| ==> PairOf(evs[i]) != p
    ensures LogOf(evs, p) == []
  {
    if evs != [] {
      LogOfOthers(evs[..|evs| - 1], p);
    }
  }

  lemma LogAround(evs: seq<TriggerEvent>, i: nat, p: Pair)
    requires i < |evs| && PairOf(evs[i]) == p
    ensures LogOf(evs, p) == LogOf(evs[..i], p) + [evs[i].kind] + LogOf(evs[i + 1..], p)
  {
    assert evs == evs[..i + 1] + evs[i + 1..];
    assert evs[..i + 1][..i] == evs[..i];
    LogOfConcat(evs[..i + 1], evs[i + 1..], p);
  }

  /** Announced pairs get one event, others none. */
  lemma LogOfAnnounced(evs: seq<TriggerEvent>, kind: EventKind, pairs: set<Pair>, p: Pair)
    requires Announces(evs, kind, pairs)
    ensures LogOf(evs, p) == if p in pairs then [kind] else []
  {
    if p in pairs {
      var i :| 0 <= i < |evs| && PairOf(evs[i]) == p;
      hide LogOf;
      LogOfOthers(evs[..i], p);
      LogOfOthers(evs[i + 1..], p);
      LogAround(evs, i, p);
    } else {
      LogOfOthers(evs, p);
    }
  }

  /** One update: entries for the newly overlapping pairs, exits for those that
      stopped, keep every pair's log alternating and in step with `active`. */
  lemma UpdateKeepsLog(log: seq<TriggerEvent>, active: set<Pair>, current: set<Pair>,
                       enters: seq<TriggerEvent>, exits: seq<TriggerEvent>, p: Pair)
    requires WellLogged(log, active, p)
    requires Announces(enters, Enter, current - active) && Announces(exits, Exit, active - current)
    ensures WellLogged(log + (enters + exits), current, p)
  {
    hide LogOf, Alternates, Inside, Announces;
    LogOfConcat(log, enters + exits, p);
    LogOfConcat(enters, exits, p);
    LogOfAnnounced(enters, Enter, current - active, p);
    LogOfAnnounced(exits, Exit, active - current, p);
    var kinds := LogOf(log, p);
    assert [] + [Exit] == [Exit] && [Enter] + [] == [Enter] && kinds + [] == kinds;
    AppendNext(kinds);
  }

  /** The next event of an alternating log is the other kind. */
  lemma AppendNext(kinds: seq<EventKind>)
    requires Alternates(kinds)
    ensures !Inside(kinds) ==> Alternates(kinds + [Enter])
    ensures Inside(kinds) ==> Alternates(kinds + [Exit])
    ensures Inside(kinds + [Enter]) && !Inside(kinds + [Exit])
  {
  }

  class TriggerSystem {
    var active: set<Pair>
    var events: seq<TriggerEvent>
    /** What has been handed out so far. */
    ghost var drained: seq<TriggerEvent>

    /** For every pair the whole log, drained and pending, alternates and tells whether it is active. */
    ghost predicate Valid()
      reads this
    {
      forall p: Pair :: WellLogged(drained + events, active, p)
    }

    constructor ()
      ensures Valid() && active == {} && events == [] && drained == []
    {
      active, events, drained := {}, [], [];
    }

    method Update(w: World)
      requires Valid()
      modifies this`active, this`events
      ensures Valid() && active == Overlapping(w.State())
      ensures exists enters: seq<TriggerEvent>, exits: seq<TriggerEvent> ::
                events == old(events) + (enters + exits) &&
                Announces(enters, Enter, active - old(active)) && Announces(exits, Exit, old(active) - active) &&
                forall ev <- enters + exits :: ev.zoneID == ZoneName(w.State(), ev.zone) && (ev.zone in w.zones ==> ev.zoneID == w.zones[ev.zone].id)
    {
      hide OverlapsAABB, WellLogged;
      var current, enters := Scan(w);
      var exits := Left(w, current);
      events := events + enters + exits;
      ghost var before := active;
      active := current;
      assert old(drained + events) + (enters + exits) == drained + events;
      forall p: Pair ensures WellLogged(drained + events, active, p) {
        UpdateKeepsLog(old(drained + events), before, current, enters, exits, p);
      }
      assert events == old(events) + (enters + exits);
      assert forall ev <- enters + exits :: ev in enters || ev in exits;
    }

    /** The double loop over zones and sensors. */
    method Scan(w: World) returns (current: set<Pair>, enters: seq<TriggerEvent>)
      ensures current == Overlapping(w.State()) && Announces(enters, Enter, current - active)
      ensures forall ev <- enters :: ev.zoneID == ZoneName(w.State(), ev.zone)
    {
      hide OverlapsAABB;
      ghost var s := w.State();
      current, enters := {}, [];
      var zones := set e <- w.alive | e in w.positions && e in w.zones;
      var sensors := set e <- w.alive | e in w.positions && e in w.sensors;
      var zs := zones;
      while zs != {}
        invariant zs <= zones && current == (set p <- Overlapping(s) | p.zone !in zs)
        invariant Announces(enters, Enter, current - active) && forall ev <- enters :: ev.zoneID == ZoneName(s, ev.zone)
        decreases |zs|
      {
        var z :| z in zs;
        var ss := sensors;
        while ss != {}
          invariant ss <= sensors && current == (set p <- Overlapping(s) | p.zone !in zs || (p.zone == z && p.sensor !in ss))
          invariant Announces(enters, Enter, current - active) && forall ev <- enters :: ev.zoneID == ZoneName(s, ev.zone)
          decreases |ss|
        {
          var sensor :| sensor in ss;
          var pair := Pair(z, sensor);
          ss := ss - {sensor};
          if OverlapsAABB(w.positions[z], w.zones[z], w.positions[sensor], w.sensors[sensor]) {
            current := current + {pair};
            if pair !in active {
              AnnounceOneMore(enters, Enter, current - {pair} - active, TriggerEvent(Enter, z, w.zones[z].id, sensor));
              assert current - active == current - {pair} - active + {pair};
              enters := enters + [TriggerEvent(Enter, z, w.zones[z].id, sensor)];
            } else {
              assert current - active == current - {pair} - active;
            }
          }
        }
        zs := zs - {z};
      }
    }

    /** Exits for the pairs that no longer overlap. */
    method Left(w: World, current: set<Pair>) returns (exits: seq<TriggerEvent>)
      ensures Announces(exits, Exit, active - current)
      ensures forall ev <- exits :: ev.zoneID == ZoneName(w.State(), ev.zone)
    {
      exits := [];
      var rest := active;
      while rest != {}
        invariant rest <= active && Announces(exits, Exit, active - rest - current)
        invariant forall ev <- exits :: ev.zoneID == ZoneName(w.State(), ev.zone)
        decreases |rest|
      {
        var pair :| pair in rest;
        if pair !in current {
          var name := if pair.zone in w.zones then w.zones[pair.zone].id else "";
          AnnounceOneMore(exits, Exit, active - rest - current, TriggerEvent(Exit, pair.zone, name, pair.sensor));
          assert active - (rest - {pair}) - current == active - rest - current + {pair};
          exits := exits + [TriggerEvent(Exit, pair.zone, name, pair.sensor)];
        } else {
          assert active - (rest - {pair}) - current == active - rest - current;
        }
        rest := rest - {pair};
      }
      assert active - {} - current == active - current;
    }

    /** Hands the pending events out and empties the buffer. */
    method DrainEvents() returns (out: seq<TriggerEvent>)
      requires Valid()
      modifies this`events, this`drained
      ensures Valid() && out == old(events) && events == [] && drained == old(drained) + out
    {
      out := events;
      drained, events := drained + events, [];
      assert drained + [] == old(drained + events);
    }
  }

  lemma AnnounceOneMore(evs: seq<TriggerEvent>, kind: EventKind, pairs: set<Pair>, ev: TriggerEvent)
    requires Announces(evs, kind, pairs) && ev.kind == kind && PairOf(ev) !in pairs
    ensures Announces(evs + [ev], kind, pairs + {PairOf(ev)})
  {
    var more := evs + [ev];
    forall p <- pairs + {PairOf(ev)} ensures exists i :: 0 <= i < |more| && PairOf(more[i]) == p {
      if p in pairs {
        var i :| 0 <= i < |evs| && PairOf(evs[i]) == p;
        assert more[i] == evs[i];
      } else {
        assert more[|evs|] == ev;
      }
    }
  }
}
