/** Saving the non-player entities of a cell and loading them into another. */
module Persist {
  import opened Text
  import opened Ecs
  import opened CellState

  const SCHEMA_VERSION := 1

  datatype NpcRecord = NpcRecord(id: Entity, position: Position, velocity: Velocity, hpCur: real, hpMax: real)

  datatype CellPersist = CellPersist(schema: int, tick: nat, loopTps: real, entities: seq<NpcRecord>)

  // ---------------------------------------------------------------- what the pieces mean

  /** What survives of one entity: a missing velocity reads as still, a
      non-positive maximum as no health at all. */
  datatype Npc = Npc(position: Position, velocity: Velocity, health: Option<Health>)

  function NpcAt(w: WorldState, e: Entity): Npc
    requires e in w.positions
  {
    Npc(w.positions[e], w.VelocityOrStill(e),
        if e in w.healths && w.healths[e].maxHP > 0.0 then Some(w.healths[e]) else None)
  }

  /** The living, positioned entities outside `skip`. */
  function NpcsOf(w: WorldState, skip: set<Entity>): map<Entity, Npc> {
    map e <- w.alive | e in w.positions && e !in skip :: NpcAt(w, e)
  }

  function NpcIn(r: NpcRecord): Npc {
    Npc(r.position, r.velocity, if r.hpMax > 0.0 then Some(Health(r.hpCur, r.hpMax)) else None)
  }

  /** A record list as a map: id 0 is ignored and later records win. */
  function Meaning(records: seq<NpcRecord>): map<Entity, Npc> {
    if records == [] then map[]
    else
      var last := records[|records| - 1];
      var m := Meaning(records[..|records| - 1]);
      if last.id == 0 then m else m[last.id := NpcIn(last)]
  }

  // ---------------------------------------------------------------- encode

  function RecordOf(w: WorldState, e: Entity): NpcRecord
    requires e in w.positions
  {
    var healthy := e in w.healths && w.healths[e].maxHP > 0.0;
    NpcRecord(e, w.positions[e], w.VelocityOrStill(e),
              if healthy then w.healths[e].hp else 0.0, if healthy then w.healths[e].maxHP else 0.0)
  }

  /** The saved form of a world: the order of the records is not fixed. */
  ghost predicate Encodes(p: CellPersist, w: WorldState, loop: Loop, skip: set<Entity>) {
    p.schema == SCHEMA_VERSION && p.tick == loop.tick && p.loopTps == loop.tps &&
    Meaning(p.entities) == NpcsOf(w, skip) && |p.entities| == |NpcsOf(w, skip)|
  }

  /** A living entity with the wrapped id 0 gets a record too, which means nothing to a load. */
  method Encode(w: WorldState, loop: Loop, skip: set<Entity>) returns (p: CellPersist)
    ensures p.schema == SCHEMA_VERSION && p.tick == loop.tick && p.loopTps == loop.tps
    ensures Meaning(p.entities) == NpcsOf(w, skip + {0}) && |p.entities| == |NpcsOf(w, skip)|
    ensures 0 !in w.alive ==> Encodes(p, w, loop, skip)
  {
    var records := [];
    var rest := w.alive;
    while rest != {}
      invariant rest <= w.alive
      invariant RecordsFor(records, w, w.alive - rest, skip)
    {
      var e :| e in rest;
      if e !in skip && e in w.positions {
        EncodeOneMore(records, w, w.alive - rest, skip, e);
        records := records + [RecordOf(w, e)];
      } else {
        EncodeSkips(records, w, w.alive - rest, skip, e);
      }
      assert w.alive - (rest - {e}) == w.alive - rest + {e};
      rest := rest - {e};
    }
    assert w.alive - {} == w.alive;
    assert NpcsOf(w.(alive := w.alive), skip) == NpcsOf(w, skip);
    assert NpcsOf(w.(alive := w.alive), skip + {0}) == NpcsOf(w, skip + {0});
    assert 0 !in w.alive ==> NpcsOf(w, skip + {0}) == NpcsOf(w, skip);
    p := CellPersist(SCHEMA_VERSION, loop.tick, loop.tps, records);
  }

  ghost predicate RecordsFor(records: seq<NpcRecord>, w: WorldState, visited: set<Entity>, skip: set<Entity>) {
    Meaning(records) == NpcsOf(w.(alive := visited), skip + {0}) && |records| == |NpcsOf(w.(alive := visited), skip)|
  }

  /** What one more living, positioned entity adds. */
  lemma NpcsGrow(w: WorldState, visited: set<Entity>, skip: set<Entity>, e: Entity)
    requires e !in visited && e in w.positions
    ensures var before, after := NpcsOf(w.(alive := visited), skip), NpcsOf(w.(alive := visited + {e}), skip);
            e !in before && after == if e in skip then before else before[e := NpcAt(w, e)]
  {
    var w1, w2 := w.(alive := visited), w.(alive := visited + {e});
    assert forall x | x in w.positions :: NpcAt(w1, x) == NpcAt(w2, x) == NpcAt(w, x);
  }

  lemma MeaningGrows(records: seq<NpcRecord>, r: NpcRecord)
    ensures Meaning(records + [r]) == if r.id == 0 then Meaning(records) else Meaning(records)[r.id := NpcIn(r)]
  {
    assert (records + [r])[..|records|] == records;
  }

  lemma EncodeOneMore(records: seq<NpcRecord>, w: WorldState, visited: set<Entity>, skip: set<Entity>, e: Entity)
    requires RecordsFor(records, w, visited, skip)
    requires e !in visited && e !in skip && e in w.positions
    ensures RecordsFor(records + [RecordOf(w, e)], w, visited + {e}, skip)
  {
    var r := RecordOf(w, e);
    assert NpcIn(r) == NpcAt(w, e);
    MeaningGrows(records, r);
    NpcsGrow(w, visited, skip, e);
    NpcsGrow(w, visited, skip + {0}, e);
    hide Meaning, NpcsOf, NpcAt, NpcIn;
  }

  lemma EncodeSkips(records: seq<NpcRecord>, w: WorldState, visited: set<Entity>, skip: set<Entity>, e: Entity)
    requires RecordsFor(records, w, visited, skip)
    requires e in skip || e !in w.positions
    ensures RecordsFor(records, w, visited + {e}, skip)
  {
    var w1, w2 := w.(alive := visited), w.(alive := visited + {e});
    assert forall x | x in visited && x in w.positions :: NpcAt(w1, x) == NpcAt(w2, x);
    assert NpcsOf(w2, skip) == NpcsOf(w1, skip);
    assert NpcsOf(w2, skip + {0}) == NpcsOf(w1, skip + {0});
  }

  // ---------------------------------------------------------------- decode

  function Cleared(w: WorldState): WorldState {
    w.(alive := {},
       positions := w.positions - w.alive, velocities := w.velocities - w.alive, healths := w.healths - w.alive,
       colliders := w.colliders - w.alive, zones := w.zones - w.alive, sensors := w.sensors - w.alive,
       dirty := w.dirty - w.alive)
  }

  function RestoreOne(w: WorldState, r: NpcRecord): WorldState {
    if r.id == 0 then w
    else w.Restore(r.id, r.position, r.velocity, Health(r.hpCur, r.hpMax), r.hpMax > 0.0)
  }

  function RestoreAll(w: WorldState, records: seq<NpcRecord>): WorldState {
    if records == [] then w
    else RestoreOne(RestoreAll(w, records[..|records| - 1]), records[|records| - 1])
  }

  function DecodedWorld(w: WorldState, p: CellPersist): WorldState {
    RestoreAll(Cleared(w), p.entities)
  }

  function DecodedLoop(loop: Loop, p: CellPersist): Loop {
    Loop(p.tick, if p.loopTps > 0.0 then p.loopTps else loop.tps)
  }

  /** Clears the world object and restores the records in order; an unknown schema changes nothing. */
  method Decode(w: World, loop: Loop, p: CellPersist) returns (ok: bool, loop': Loop)
    modifies w
    ensures ok <==> p.schema == SCHEMA_VERSION
    ensures !ok ==> w.State() == old(w.State()) && loop' == loop
    ensures ok ==> w.State() == DecodedWorld(old(w.State()), p) && loop' == DecodedLoop(loop, p)
  {
    if p.schema != SCHEMA_VERSION {
      return false, loop;
    }
    DestroyAll(w);
    label cleared:
    for i := 0 to |p.entities|
      invariant w.State() == RestoreAll(old@cleared(w.State()), p.entities[..i])
    {
      assert p.entities[..i + 1][..i] == p.entities[..i];
      RestoreRecord(w, p.entities[i]);
    }
    assert p.entities[..|p.entities|] == p.entities;
    ok, loop' := true, DecodedLoop(loop, p);
  }

  method RestoreRecord(w: World, r: NpcRecord)
    modifies w
    ensures w.State() == RestoreOne(old(w.State()), r)
  {
    if r.id != 0 {
      w.RestorePersistEntity(r.id, r.position, r.velocity, Health(r.hpCur, r.hpMax), r.hpMax > 0.0);
    }
  }

  method DestroyAll(w: World)
    modifies w
    ensures w.State() == Cleared(old(w.State()))
  {
    ghost var w0 := w.State();
    var ids := w.alive;
    assert w0 == Without(w0, {});
    while ids != {}
      invariant ids <= w0.alive
      invariant w.State() == Without(w0, w0.alive - ids)
    {
      var e :| e in ids;
      DestroyOneMore(w0, w0.alive - ids, e);
      w.DestroyEntity(e);
      assert w0.alive - (ids - {e}) == w0.alive - ids + {e};
      ids := ids - {e};
    }
    assert w0.alive - {} == w0.alive;
  }

  /** The world after destroying all of `gone`. */
  ghost function Without(w: WorldState, gone: set<Entity>): WorldState {
    w.(alive := w.alive - gone,
       positions := w.positions - gone, velocities := w.velocities - gone, healths := w.healths - gone,
       colliders := w.colliders - gone, zones := w.zones - gone, sensors := w.sensors - gone,
       dirty := w.dirty - gone)
  }

  lemma DestroyOneMore(w: WorldState, gone: set<Entity>, e: Entity)
    ensures Without(w, gone).Destroy(e) == Without(w, gone + {e})
  {
    MinusMore(w.positions, gone, e);
    MinusMore(w.velocities, gone, e);
    MinusMore(w.healths, gone, e);
    MinusMore(w.colliders, gone, e);
    MinusMore(w.zones, gone, e);
    MinusMore(w.sensors, gone, e);
    assert w.alive - gone - {e} == w.alive - (gone + {e});
    assert w.dirty - gone - {e} == w.dirty - (gone + {e});
  }

  lemma MinusMore<V>(m: map<Entity, V>, gone: set<Entity>, e: Entity)
    ensures m - gone - {e} == m - (gone + {e})
  {
  }

  // ---------------------------------------------------------------- the round trip

  /** Loading a record list makes the world's entities exactly what the list means. */
  lemma {:induction false} RestoreMeans(w: WorldState, records: seq<NpcRecord>)
    requires w.alive == {}
    ensures NpcsOf(RestoreAll(w, records), {}) == Meaning(records)
    ensures RestoreAll(w, records).alive == Meaning(records).Keys
  {
    if records != [] {
      RestoreMeans(w, records[..|records| - 1]);
      var r := records[|records| - 1];
      var w1 := RestoreAll(w, records[..|records| - 1]);
      if r.id != 0 {
        assert NpcAt(RestoreOne(w1, r), r.id) == NpcIn(r);
      }
    }
  }

  /** Saving one cell and loading it into any other reproduces the saved entities
      with their ids, the tick and a positive tick rate. */
  lemma RoundTrip(w: WorldState, loop: Loop, skip: set<Entity>, p: CellPersist, target: WorldState, targetLoop: Loop)
    requires Encodes(p, w, loop, skip)
    ensures NpcsOf(DecodedWorld(target, p), {}) == NpcsOf(w, skip)
    ensures DecodedWorld(target, p).alive == NpcsOf(w, skip).Keys
    ensures DecodedLoop(targetLoop, p).tick == loop.tick
    ensures loop.tps > 0.0 ==> DecodedLoop(targetLoop, p) == loop
  {
    RestoreMeans(Cleared(target), p.entities);
  }

  lemma {:induction false} RestoredIsWhole(w: WorldState, records: seq<NpcRecord>)
    requires w.alive == {}
    ensures forall e <- RestoreAll(w, records).alive :: Whole(RestoreAll(w, records), e)
  {
    if records != [] {
      RestoredIsWhole(w, records[..|records| - 1]);
      var f, last := RestoreAll(w, records[..|records| - 1]), records[|records| - 1];
      assert RestoreAll(w, records) == RestoreOne(f, last);
      forall e | e in RestoreOne(f, last).alive ensures Whole(RestoreOne(f, last), e) {
        assert e in f.alive ==> Whole(f, e);
      }
    }
  }

  /** What every loaded entity has. */
  predicate Whole(w: WorldState, e: Entity) {
    e in w.positions && e in w.velocities && (e in w.healths ==> w.healths[e].maxHP > 0.0)
  }

  /** The loaded entity is the saved one, component by component. */
  predicate SameLoaded(w: WorldState, r: WorldState, e: Entity)
    requires e in w.positions
  {
    e in r.positions && r.positions[e] == w.positions[e] &&
    e in r.velocities && r.velocities[e] == (if e in w.velocities then w.velocities[e] else Velocity(0.0, 0.0, 0.0)) &&
    (e in r.healths <==> e in w.healths && w.healths[e].maxHP > 0.0) && (e in r.healths ==> r.healths[e] == w.healths[e])
  }

  /** The same told from the maps of the two worlds: exactly the living,
      positioned entities outside `skip` are there, each where it was, moving as it
      moved, with its health if its maximum is positive and none otherwise. */
  lemma RoundTripKeeps(w: WorldState, loop: Loop, skip: set<Entity>, p: CellPersist, target: WorldState)
    requires Encodes(p, w, loop, skip)
    ensures var r := DecodedWorld(target, p);
            (forall e :: e in r.alive <==> e in w.alive && e in w.positions && e !in skip) && forall e <- r.alive :: SameLoaded(w, r, e)
  {
    RoundTrip(w, loop, skip, p, target, loop);
    RestoredIsWhole(Cleared(target), p.entities);
    var r := DecodedWorld(target, p);
    hide DecodedWorld, RestoreAll, Cleared, Meaning;
    forall e | e in r.alive ensures e in w.alive && e in w.positions && e !in skip && SameLoaded(w, r, e) {
      assert e in NpcsOf(w, skip);
      assert NpcsOf(r, {})[e] == NpcsOf(w, skip)[e];
      assert NpcAt(r, e) == NpcAt(w, e);
      assert Whole(r, e);
    }
    forall e | e in w.alive && e in w.positions && e !in skip ensures e in r.alive {
      assert e in NpcsOf(w, skip);
    }
  }

  const LAST_ID: Entity := ID_SPACE - 1

  /** Every record with the last id is followed by one with the id before it. */
  predicate LastIdAnswered(records: seq<NpcRecord>) {
    forall i | 0 <= i < |records| && records[i].id == LAST_ID :: exists j :: i < j < |records| && records[j].id == LAST_ID - 1
  }

  /** The ids are 64-bit, and after loading them the counter is above them all. */
  predicate IdsFit(records: seq<NpcRecord>) {
    (forall r <- records :: r.id < ID_SPACE) && LastIdAnswered(records)
  }

  lemma AnsweredStep(front: seq<NpcRecord>, r: NpcRecord)
    ensures r.id == LAST_ID ==> !LastIdAnswered(front + [r])
    ensures r.id == LAST_ID - 1 ==> LastIdAnswered(front + [r])
    ensures r.id < LAST_ID - 1 ==> (LastIdAnswered(front + [r]) <==> LastIdAnswered(front))
  {
    var all := front + [r];
    assert all[|front|] == r && forall i :: 0 <= i < |front| ==> all[i] == front[i];
    if r.id < LAST_ID - 1 && LastIdAnswered(all) {
      forall i | 0 <= i < |front| && front[i].id == LAST_ID
        ensures exists j :: i < j < |front| && front[j].id == LAST_ID - 1
      {
        assert all[i].id == LAST_ID;
        var j :| i < j < |all| && all[j].id == LAST_ID - 1;
        assert front[j].id == LAST_ID - 1;
      }
    }
  }

  /** Where the counter can be after loading: above every id, or wrapped below the last one. */
  predicate Bounded(w: WorldState) {
    w.nextID < ID_SPACE && (forall e <- w.alive :: 1 <= e < ID_SPACE) &&
    ((forall e <- w.alive :: e <= w.nextID) || (LAST_ID in w.alive && w.nextID < LAST_ID))
  }

  /** A record moves the counter above its id, except that the last id wraps it
      to 0 and only the id before the last brings it back up. */
  lemma RestoreOneBounds(w: WorldState, r: NpcRecord)
    requires Bounded(w) && r.id < ID_SPACE
    ensures var a := RestoreOne(w, r);
            Bounded(a) && (a.IdsBelowCounter() <==> r.id == LAST_ID - 1 || (r.id != LAST_ID && w.IdsBelowCounter()))
  {
    var a := RestoreOne(w, r);
    if r.id != 0 {
      assert r.id in a.alive && a.alive == w.alive + {r.id};
      assert a.nextID == if r.id >= w.nextID then (if r.id == LAST_ID then 0 else r.id + 1) else w.nextID;
    }
  }

  lemma {:induction false} RestoreBounds(w: WorldState, records: seq<NpcRecord>)
    requires w.IdsBelowCounter() && forall r <- records :: r.id < ID_SPACE
    ensures Bounded(RestoreAll(w, records)) && (RestoreAll(w, records).IdsBelowCounter() <==> LastIdAnswered(records))
  {
    hide RestoreOne, Bounded, LastIdAnswered, WorldState.IdsBelowCounter;
    if records != [] {
      var front, r := records[..|records| - 1], records[|records| - 1];
      assert records == front + [r] && r in records;
      RestoreBounds(w, front);
      AnsweredStep(front, r);
      RestoreOneBounds(RestoreAll(w, front), r);
    } else {
      StartBounded(w);
    }
  }

  lemma StartBounded(w: WorldState)
    requires w.IdsBelowCounter()
    ensures Bounded(w) && LastIdAnswered([])
  {
  }

  /** Loading keeps later ids fresh, as long as the counter lasts, exactly when
      every record with the last id is followed by one with the id before it. */
  lemma RestoreKeepsFreshIds(w: WorldState, records: seq<NpcRecord>)
    requires w.IdsBelowCounter() && forall r <- records :: r.id < ID_SPACE
    ensures RestoreAll(w, records).IdsBelowCounter() <==> LastIdAnswered(records)
    ensures FreshWhileTheyLast(RestoreAll(w, records)) <==> LastIdAnswered(records)
  {
    RestoreBounds(w, records);
    FreshExactly(RestoreAll(w, records));
  }

  /** A record with the last id resets the counter, so that the very next
      entity may be given an id that is already in use. */
  lemma LastIdResetsCounter()
    ensures exists p: CellPersist ::
              var w := DecodedWorld(EMPTY_WORLD, p);
              p.schema == SCHEMA_VERSION && w.alive == {1, ID_SPACE - 1} && w.Created() in w.alive
  {
    var a := NpcRecord(1, ORIGIN, STILL, 0.0, 0.0);
    var b := NpcRecord(ID_SPACE - 1, ORIGIN, STILL, 0.0, 0.0);
    var p := CellPersist(SCHEMA_VERSION, 0, 0.0, [a, b]);
    assert [a, b][..1] == [a] && [a][..0] == [];
    var w0 := Cleared(EMPTY_WORLD);
    assert RestoreAll(w0, []) == w0;
    assert RestoreAll(w0, [a]) == RestoreOne(w0, a);
    assert RestoreAll(w0, [a, b]) == RestoreOne(RestoreAll(w0, [a]), b);
    var w := DecodedWorld(EMPTY_WORLD, p);
    assert w.nextID == 0 && w.alive == {1, ID_SPACE - 1};
    assert w.Created() == 1;
  }

  // ---------------------------------------------------------------- merging several saves

  lemma {:induction false} MeaningOfConcat(a: seq<NpcRecord>, b: seq<NpcRecord>)
    ensures Meaning(a + b) == Meaning(a) + Meaning(b)
  {
    if b == [] {
      assert a + b == a;
    } else {
      assert (a + b)[..|a + b| - 1] == a + b[..|b| - 1];
      MeaningOfConcat(a, b[..|b| - 1]);
    }
  }

  lemma {:induction false} MeaningCounts(records: seq<NpcRecord>)
    ensures |Meaning(records)| <= |records|
  {
    if records != [] {
      MeaningCounts(records[..|records| - 1]);
      var m := Meaning(records[..|records| - 1]);
      var id := records[|records| - 1].id;
      if id != 0 {
        assert Meaning(records).Keys == m.Keys + {id};
      }
    }
  }

  function Concat(parts: seq<seq<NpcRecord>>): seq<NpcRecord> {
    if parts == [] then [] else Concat(parts[..|parts| - 1]) + parts[|parts| - 1]
  }

  /** Union of several maps; the last one that has a key decides. */
  function LastWins(maps: seq<map<Entity, Npc>>): map<Entity, Npc> {
    if maps == [] then map[] else LastWins(maps[..|maps| - 1]) + maps[|maps| - 1]
  }

  /** Which map decides: the last in order that knows the id. */
  lemma {:induction false} LastWinsDecides(maps: seq<map<Entity, Npc>>, e: Entity)
    ensures e in LastWins(maps) <==> exists i :: 0 <= i < |maps| && e in maps[i]
    ensures forall i :: 0 <= i < |maps| && e in maps[i] && (forall j :: i < j < |maps| ==> e !in maps[j]) ==>
              e in LastWins(maps) && LastWins(maps)[e] == maps[i][e]
  {
    if maps != [] {
      var n := |maps| - 1;
      var front := maps[..n];
      LastWinsDecides(front, e);
      LastAdds(maps);
      hide LastWins;
      forall i | 0 <= i < |maps| && e in maps[i] && (forall j :: i < j < |maps| ==> e !in maps[j])
        ensures e in LastWins(maps) && LastWins(maps)[e] == maps[i][e]
      {
        if i < n {
          assert front[i] == maps[i] && forall j :: i < j < n ==> front[j] == maps[j];
        }
      }
      assert forall i :: 0 <= i < n ==> maps[i] == front[i];
    }
  }

  lemma LastAdds(maps: seq<map<Entity, Npc>>)
    requires maps != []
    ensures LastWins(maps) == LastWins(maps[..|maps| - 1]) + maps[|maps| - 1]
  {
  }

  ghost predicate PairwiseDisjoint(maps: seq<map<Entity, Npc>>) {
    forall i, j :: 0 <= i < j < |maps| ==> maps[i].Keys !! maps[j].Keys
  }

  function TotalSize(maps: seq<map<Entity, Npc>>): nat {
    if maps == [] then 0 else TotalSize(maps[..|maps| - 1]) + |maps[|maps| - 1]|
  }

  /** The summed count equals the size of the union exactly when no id occurs twice. */
  lemma {:induction false} UnionSize(maps: seq<map<Entity, Npc>>)
    ensures |LastWins(maps)| <= TotalSize(maps)
    ensures |LastWins(maps)| == TotalSize(maps) <==> PairwiseDisjoint(maps)
  {
    if maps != [] {
      var front, last := maps[..|maps| - 1], maps[|maps| - 1];
      UnionSize(front);
      UnionOfTwo(LastWins(front), last);
      DisjointFromAll(front, last);
      assert forall i :: 0 <= i < |front| ==> maps[i] == front[i];
      assert PairwiseDisjoint(maps) <==> PairwiseDisjoint(front) && LastWins(front).Keys !! last.Keys;
    }
  }

  lemma UnionOfTwo(a: map<Entity, Npc>, b: map<Entity, Npc>)
    ensures |a + b| <= |a| + |b|
    ensures |a + b| == |a| + |b| <==> a.Keys !! b.Keys
  {
    assert (a + b).Keys == a.Keys + b.Keys;
    assert |a.Keys + b.Keys| == |a.Keys| + |b.Keys| - |a.Keys * b.Keys|;
  }

  lemma DisjointFromAll(maps: seq<map<Entity, Npc>>, b: map<Entity, Npc>)
    ensures LastWins(maps).Keys !! b.Keys <==> forall i :: 0 <= i < |maps| ==> maps[i].Keys !! b.Keys
  {
    forall e | e in b ensures e in LastWins(maps) <==> exists i :: 0 <= i < |maps| && e in maps[i] {
      LastWinsDecides(maps, e);
    }
    if LastWins(maps).Keys !! b.Keys {
      forall i | 0 <= i < |maps| ensures maps[i].Keys !! b.Keys {
        assert forall e | e in maps[i] && e in b :: e in LastWins(maps);
      }
    }
  }

  /** Loading the concatenation of several saves yields the last-wins union of the
      saved cells, and the reported record count is the loaded entity count exactly
      when the saved ids are disjoint. */
  lemma MergedImport(parts: seq<CellPersist>, worlds: seq<WorldState>, loops: seq<Loop>, skips: seq<set<Entity>>,
                     merged: CellPersist, target: WorldState)
    requires |parts| == |worlds| == |loops| == |skips|
    requires forall i :: 0 <= i < |parts| ==> Encodes(parts[i], worlds[i], loops[i], skips[i])
    requires merged.entities == Concat(seq(|parts|, i requires 0 <= i < |parts| => parts[i].entities))
    ensures var maps := seq(|parts|, i requires 0 <= i < |parts| => NpcsOf(worlds[i], skips[i]));
            var w := DecodedWorld(target, merged);
            NpcsOf(w, {}) == LastWins(maps) &&
            |merged.entities| == TotalSize(maps) &&
            (|merged.entities| == |w.alive| <==> PairwiseDisjoint(maps))
  {
    var lists := seq(|parts|, i requires 0 <= i < |parts| => parts[i].entities);
    var maps := seq(|parts|, i requires 0 <= i < |parts| => NpcsOf(worlds[i], skips[i]));
    ConcatMeans(lists, maps);
    RestoreMeans(Cleared(target), merged.entities);
    UnionSize(maps);
  }

  lemma {:induction false} ConcatMeans(lists: seq<seq<NpcRecord>>, maps: seq<map<Entity, Npc>>)
    requires |lists| == |maps|
    requires forall i :: 0 <= i < |lists| ==> Meaning(lists[i]) == maps[i] && |lists[i]| == |maps[i]|
    ensures Meaning(Concat(lists)) == LastWins(maps) && |Concat(lists)| == TotalSize(maps)
  {
    hide Meaning;
    if lists == [] {
      assert Meaning([]) == map[] by { NothingMeant(); }
    } else {
      var n := |lists| - 1;
      hide Concat, LastWins, TotalSize;
      LastPart(lists, maps);
      ConcatMeans(lists[..n], maps[..n]);
      MeaningOfConcat(Concat(lists[..n]), lists[n]);
    }
  }

  lemma NothingMeant()
    ensures Meaning([]) == map[]
  {
  }

  lemma LastPart(lists: seq<seq<NpcRecord>>, maps: seq<map<Entity, Npc>>)
    requires |lists| == |maps| && lists != []
    ensures var n := |lists| - 1;
            Concat(lists) == Concat(lists[..n]) + lists[n] && LastWins(maps) == LastWins(maps[..n]) + maps[n] &&
            TotalSize(maps) == TotalSize(maps[..n]) + |maps[n]|
  {
  }

  /** Copying a cell to several others and merging those back restores its entities. */
  lemma {:induction false} CopiesMergeBack(maps: seq<map<Entity, Npc>>, m: map<Entity, Npc>)
    requires |maps| > 0 && forall i :: 0 <= i < |maps| ==> maps[i] == m
    ensures LastWins(maps) == m
  {
    if |maps| == 1 {
      assert LastWins(maps[..0]) == map[];
    } else {
      CopiesMergeBack(maps[..|maps| - 1], m);
    }
  }

  // ---------------------------------------------------------------- the cell's import and export calls

  ghost predicate IsExport(c: Cell, p: CellPersist) {
    Encodes(p, c.world, c.loop, c.players)
  }

  /** Import is refused while players are registered. */
  function Import(c: Cell, p: CellPersist): (r: (Cell, bool)) {
    if |c.playerByID| > 0 || p.schema != SCHEMA_VERSION then (c, false)
    else (c.(world := DecodedWorld(c.world, p), loop := DecodedLoop(c.loop, p)), true)
  }
}
