/** One subscriber's loop over the live world object: what it sees, what it
    sends, and how often. */
module Subscription {
  import opened Text
  import opened Ecs
  import opened Grid
  import opened Replication
  import WholeWorld

  const AOI_RADIUS := 50.0
  /** Nobody else in sight, someone near, otherwise: milliseconds between rounds. */
  const INTERVAL_FAR := 300
  const INTERVAL_NEAR := 100
  const INTERVAL_DEFAULT := 200
  const NEAR_DISTANCE := 15.0

  /** What a viewer sees: with a current index exactly the indexed entities
      within the closed disc around it, and itself. */
  method VisibleEntitiesAOI(w: World, grid: SpatialGrid, viewer: Entity, radius: real) returns (out: seq<Entity>)
    requires grid.Valid()
    ensures Distinct(out) && forall e <- out :: e in w.positions
    ensures viewer !in w.positions ==> out == []
    ensures viewer in w.positions ==> viewer in out
    ensures viewer in w.positions && radius >= 0.0 && Current(grid.cellSize, grid.entityCell, w.positions) ==>
              forall e :: e in out <==>
                e == viewer || (e in grid.entityCell && InDisc(w.positions, e, w.positions[viewer].x, w.positions[viewer].z, radius))
  {
    hide InDisc, KeyAt, InSquare, Current;
    if viewer !in w.positions {
      return [];
    }
    var p := w.positions[viewer];
    var list := grid.QueryRadius(w, p.x, p.z, radius);
    FoundHavePositions(list, w.positions, grid, p.x, p.z, radius);
    var seen := Members(list) + {viewer};
    out := Listed(seen);
  }

  function Members(s: seq<Entity>): set<Entity> {
    set e <- s
  }

  method Listed(es: set<Entity>) returns (out: seq<Entity>)
    ensures Lists(out, es)
  {
    out := [];
    var rest := es;
    while rest != {}
      invariant rest <= es && Distinct(out) && forall e :: e in out <==> e in es - rest
      decreases |rest|
    {
      var e :| e in rest;
      assert e !in out;
      rest := rest - {e};
      out := out + [e];
    }
  }

  lemma FoundHavePositions(found: seq<Entity>, positions: map<Entity, Position>, grid: SpatialGrid, cx: real,
                           cz: real, r: real)
    requires grid.cellSize > 0.0 && (r < 0.0 ==> found == [])
    requires r >= 0.0 ==> forall e :: e in found <==>
               e in grid.entityCell && InDisc(positions, e, cx, cz, r) &&
               InSquare(grid.entityCell[e], grid.Corner(cx, cz, -r), grid.Corner(cx, cz, r))
    ensures forall e <- found :: e in positions
  {
  }

  /** Squared distance between two positioned entities in the plane. */
  function DistanceSquared(positions: map<Entity, Position>, a: Entity, b: Entity): real
    requires a in positions && b in positions
  {
    var dx, dz := positions[b].x - positions[a].x, positions[b].z - positions[a].z;
    Times(dx, dx) + Times(dz, dz)
  }

  predicate Other(positions: map<Entity, Position>, viewer: Entity, e: Entity) {
    e != viewer && e in positions
  }

  /** The pause that suits what a positioned viewer sees. */
  ghost predicate PacedFor(positions: map<Entity, Position>, viewer: Entity, visible: set<Entity>, ms: int) {
    viewer in positions && ms in {INTERVAL_FAR, INTERVAL_NEAR, INTERVAL_DEFAULT} &&
    (ms == INTERVAL_FAR <==> forall e <- visible :: !Other(positions, viewer, e)) &&
    (ms == INTERVAL_NEAR <==> exists e <- visible ::
       Other(positions, viewer, e) && InDisc(positions, e, positions[viewer].x, positions[viewer].z, NEAR_DISTANCE))
  }

  /** Near exactly when someone else is within 15, far exactly when nobody else is visible. */
  method PickAdaptiveReplicationInterval(w: World, viewer: Entity, visible: seq<Entity>) returns (ms: int)
    ensures viewer !in w.positions ==> ms == INTERVAL_DEFAULT
    ensures viewer in w.positions ==> PacedFor(w.positions, viewer, Members(visible), ms)
  {
    hide Times;
    if viewer !in w.positions {
      return INTERVAL_DEFAULT;
    }
    var nearest: Option<real> := None;
    for i := 0 to |visible|
      invariant nearest.None? <==> forall k :: 0 <= k < i ==> !Other(w.positions, viewer, visible[k])
      invariant nearest.Some? ==> forall k :: 0 <= k < i && Other(w.positions, viewer, visible[k]) ==>
                                    nearest.value <= DistanceSquared(w.positions, viewer, visible[k])
      invariant nearest.Some? ==> exists k :: 0 <= k < i && Other(w.positions, viewer, visible[k]) &&
                                    nearest.value == DistanceSquared(w.positions, viewer, visible[k])
    {
      var e := visible[i];
      if e != viewer && e in w.positions {
        var d := DistanceSquared(w.positions, viewer, e);
        if nearest.None? || d < nearest.value {
          nearest := Some(d);
        }
      }
    }
    if nearest.None? {
      return INTERVAL_FAR;
    }
    if nearest.value <= Times(NEAR_DISTANCE, NEAR_DISTANCE) {
      return INTERVAL_NEAR;
    }
    ms := INTERVAL_DEFAULT;
    assert forall e <- visible :: exists k :: 0 <= k < |visible| && visible[k] == e;
  }

  class Subscriber {
    const viewer: Entity
    var useAOI: bool
    var prevVisible: Option<set<Entity>>
    var lastSendTick: nat
    var first: bool
    var interval: int

    constructor (viewer: Entity)
      ensures this.viewer == viewer && useAOI == (viewer != 0)
      ensures first && prevVisible.None? && lastSendTick == 0 && interval == INTERVAL_DEFAULT
    {
      this.viewer, useAOI := viewer, viewer != 0;
      first, prevVisible, lastSendTick, interval := true, None, 0, INTERVAL_DEFAULT;
    }

    /** One turn of the loop. Once the viewer has no position, or there is no
        index, the subscriber falls back for good to the marks of the whole world. */
    method Round(w: World, grid: SpatialGrid?, players: set<Entity>, tick: nat) returns (sent: Option<Chunk>)
      requires grid != null ==> grid.Valid()
      requires first ==> prevVisible.None?
      modifies this, w
      ensures !first && lastSendTick == tick
      ensures useAOI == (old(useAOI) && viewer in old(w.positions) && grid != null)
      ensures w.State() == if old(first) then old(w.State()) else old(w.State()).(dirty := {})
      ensures useAOI && (old(first) || old(prevVisible).Some?) ==>
                prevVisible.Some? && viewer in prevVisible.value && (forall e <- prevVisible.value :: e in w.positions) &&
                Sends(old(w.State()), players, viewer, old(prevVisible), prevVisible.value, tick, old(lastSendTick), sent)
      ensures useAOI && (old(first) || old(prevVisible).Some?) && Current(grid.cellSize, grid.entityCell, w.positions) ==>
                forall e :: e in prevVisible.value <==>
                  e == viewer || (e in grid.entityCell && InDisc(w.positions, e, w.positions[viewer].x, w.positions[viewer].z, AOI_RADIUS))
      ensures !useAOI ==> WholeWorld.SendsAll(old(w.State()), players, old(first), tick, old(lastSendTick), sent) && interval == INTERVAL_DEFAULT
      ensures useAOI && (old(first) || old(prevVisible).Some?) ==>
                PacedFor(w.positions, viewer, prevVisible.value, interval)
    {
      hide Sends, InDisc, Current, StatesOf, SortEntities, Indexed, DistanceSquared, PacedFor, WholeWorld.SendsAll;
      if useAOI && (viewer !in w.positions || grid == null) {
        useAOI := false;
      }
      if first {
        var es;
        if useAOI {
          es := VisibleEntitiesAOI(w, grid, viewer, AOI_RADIUS);
          prevVisible := Some(Members(es));
          interval := PickAdaptiveReplicationInterval(w, viewer, es);
        } else {
          es := PositionedEntities(w);
          interval := INTERVAL_DEFAULT;
        }
        var states := BuildStates(w.State(), es, players);
        sent := Some(Snapshot(tick, states));
        first, lastSendTick := false, tick;
        if useAOI {
          FirstSends(w.State(), players, viewer, es, prevVisible.value, tick, old(lastSendTick), sent);
        } else {
          FirstSendsAll(w.State(), players, es, tick, old(lastSendTick), sent);
        }
        return;
      }
      ghost var before := w.State();
      var dirty := w.TakeDirtyEntities();
      var changed, removed := dirty, [];
      if useAOI {
        var es := VisibleEntitiesAOI(w, grid, viewer, AOI_RADIUS);
        interval := PickAdaptiveReplicationInterval(w, viewer, es);
        var cur := Members(es);
        DistinctByCount(dirty, before.dirty);
        changed := ChangedEntities(dirty, prevVisible, cur);
        if prevVisible.Some? {
          removed := RemovedEntities(prevVisible.value, cur);
        }
        prevVisible := Some(cur);
      } else {
        interval := INTERVAL_DEFAULT;
      }
      var states := BuildStates(w.State(), changed, players);
      sent := WorthSending(Delta(tick, lastSendTick, states, removed));
      if useAOI && old(prevVisible).Some? {
        LaterSends(before, w.State(), players, viewer, old(prevVisible).value, prevVisible.value, changed, removed, tick, lastSendTick, sent);
      } else if !useAOI {
        DistinctByCount(dirty, before.dirty);
        LaterSendsAll(before, w.State(), players, dirty, tick, lastSendTick, sent);
      }
      lastSendTick := tick;
    }

    /** The marked entities that are visible, then the newly visible ones not already taken. */
    method ChangedEntities(dirty: seq<Entity>, prev: Option<set<Entity>>, cur: set<Entity>) returns (changed: seq<Entity>)
      requires Distinct(dirty)
      ensures Distinct(changed)
      ensures forall e :: e in changed <==> (e in dirty && (e in cur || e == viewer)) || (prev.Some? && e in cur && e !in prev.value)
    {
      changed := [];
      var seen: set<Entity> := {};
      for i := 0 to |dirty|
        invariant Distinct(changed) && forall e :: e in seen <==> e in changed
        invariant forall e :: e in changed <==> e in dirty[..i] && (e in cur || e == viewer)
      {
        var e := dirty[i];
        if e in cur || e == viewer {
          changed := changed + [e];
          seen := seen + {e};
        }
      }
      assert dirty[..|dirty|] == dirty;
      if prev.Some? {
        var rest := cur;
        while rest != {}
          invariant rest <= cur && Distinct(changed) && forall e :: e in seen <==> e in changed
          invariant forall e :: e in changed <==> (e in dirty && (e in cur || e == viewer)) || (e in cur - rest && e !in prev.value)
          decreases |rest|
        {
          var e :| e in rest;
          rest := rest - {e};
          if e !in prev.value && e !in seen {
            changed := changed + [e];
            seen := seen + {e};
          }
        }
      }
    }

    static method RemovedEntities(prev: set<Entity>, cur: set<Entity>) returns (removed: seq<Entity>)
      ensures Lists(removed, prev - cur)
    {
      removed := [];
      var rest := prev;
      while rest != {}
        invariant rest <= prev && Distinct(removed) && forall e :: e in removed <==> e in prev - rest && e !in cur
        decreases |rest|
      {
        var e :| e in rest;
        rest := rest - {e};
        if e !in cur {
          removed := removed + [e];
        }
      }
    }

    /** All living entities with a position, in some order. */
    static method PositionedEntities(w: World) returns (out: seq<Entity>)
      ensures Distinct(out) && forall e :: e in out <==> e in w.alive && e in w.positions
    {
      out := [];
      var rest := w.alive;
      while rest != {}
        invariant rest <= w.alive && Distinct(out) && forall e :: e in out <==> e in w.alive - rest && e in w.positions
        decreases |rest|
      {
        var e :| e in rest;
        rest := rest - {e};
        if e in w.positions {
          out := out + [e];
        }
      }
    }
  }

  /** A list as long as the set of its members has no repetitions. */
  lemma DistinctByCount(s: seq<Entity>, es: set<Entity>)
    requires |s| == |es| && forall e :: e in s <==> e in es
    ensures Distinct(s)
  {
    forall i, j | 0 <= i < j < |s| ensures s[i] != s[j] {
      if s[i] == s[j] {
        var t := s[..j] + s[j + 1..];
        assert s == s[..j] + [s[j]] + s[j + 1..];
        assert s[i] == t[i];
        forall e | e in es ensures e in t {
          assert e in s;
        }
        assert es == Members(t);
        SizeOfMembers(t);
      }
    }
  }

  lemma {:induction false} SizeOfMembers(s: seq<Entity>)
    ensures |Members(s)| <= |s|
  {
    if s != [] {
      SizeOfMembers(s[1..]);
      assert s == [s[0]] + s[1..];
      assert Members(s) == Members(s[1..]) + {s[0]};
    }
  }

  lemma FirstSends(w: WorldState, players: set<Entity>, viewer: Entity, es: seq<Entity>, cur: set<Entity>,
                   tick: nat, last: nat, sent: Option<Chunk>)
    requires Distinct(es) && cur == (set e <- es) && sent == Some(Snapshot(tick, StatesOf(w, SortEntities(es, players), players)))
    ensures Sends(w, players, viewer, None, cur, tick, last, sent)
  {
    hide StatesOf, SortEntities;
    assert Lists(es, cur);
  }

  lemma LaterSends(before: WorldState, w: WorldState, players: set<Entity>, viewer: Entity, was: set<Entity>, cur: set<Entity>,
                   changed: seq<Entity>, removed: seq<Entity>, tick: nat, last: nat, sent: Option<Chunk>)
    requires w == before.(dirty := {}) && Lists(removed, was - cur) && Distinct(changed)
    requires forall e :: e in changed <==> (e in before.dirty && (e in cur || e == viewer)) || (e in cur && e !in was)
    requires sent == WorthSending(Delta(tick, last, StatesOf(w, SortEntities(changed, players), players), removed))
    ensures Sends(before, players, viewer, Some(was), cur, tick, last, sent)
  {
    StatesIgnoreMarks(before, SortEntities(changed, players), players);
    hide StatesOf, SortEntities, WorthSending;
    assert Lists(changed, Changed(before, viewer, was, cur));
  }

  lemma FirstSendsAll(w: WorldState, players: set<Entity>, es: seq<Entity>, tick: nat, last: nat, sent: Option<Chunk>)
    requires Distinct(es) && forall e :: e in es <==> e in w.alive && e in w.positions
    requires sent == Some(Snapshot(tick, StatesOf(w, SortEntities(es, players), players)))
    ensures WholeWorld.SendsAll(w, players, true, tick, last, sent)
  {
    hide StatesOf, SortEntities;
    assert Lists(es, WholeWorld.Placed(w));
  }

  lemma LaterSendsAll(before: WorldState, w: WorldState, players: set<Entity>, dirty: seq<Entity>, tick: nat, last: nat, sent: Option<Chunk>)
    requires w == before.(dirty := {}) && Lists(dirty, before.dirty)
    requires sent == WorthSending(Delta(tick, last, StatesOf(w, SortEntities(dirty, players), players), []))
    ensures WholeWorld.SendsAll(before, players, false, tick, last, sent)
  {
    StatesIgnoreMarks(before, SortEntities(dirty, players), players);
    hide StatesOf, SortEntities, WorthSending;
  }

  lemma {:induction false} StatesIgnoreMarks(w: WorldState, es: seq<Entity>, players: set<Entity>)
    ensures StatesOf(w.(dirty := {}), es, players) == StatesOf(w, es, players)
  {
    if es != [] {
      StatesIgnoreMarks(w, es[..|es| - 1], players);
    }
  }
}
