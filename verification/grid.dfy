/** The uniform grid over X and Z that answers "who is within this radius". */
module Grid {
  import opened Ecs

  type Key = (int, int)

  const DEFAULT_CELL_SIZE := 50.0

  function KeyAt(size: real, x: real, z: real): Key
    requires size > 0.0
  {
    ((x / size).Floor, (z / size).Floor)
  }

  /** The key names the half-open square of side `size` that holds the point. */
  lemma KeyHoldsPoint(size: real, x: real, z: real)
    requires size > 0.0
    ensures var k := KeyAt(size, x, z); Spans(k.0, size, x) && Spans(k.1, size, z)
  {
    FloorSpans(size, x);
    FloorSpans(size, z);
  }

  predicate Spans(n: int, size: real, x: real) {
    n as real * size <= x < (n + 1) as real * size
  }

  lemma FloorSpans(size: real, x: real)
    requires size > 0.0
    ensures Spans((x / size).Floor, size, x)
  {
    var q := x / size;
    var n := q.Floor;
    assert q * size == x;
    Scale(n as real, q, size);
    Scale(q, (n + 1) as real, size);
  }

  lemma Scale(a: real, b: real, size: real)
    requires size > 0.0
    ensures a <= b ==> a * size <= b * size
    ensures a < b ==> a * size < b * size
  {
  }

  predicate Distinct(s: seq<Entity>) {
    forall i, j :: 0 <= i < j < |s| ==> s[i] != s[j]
  }

  /** The entity stands inside the closed disc. */
  predicate InDisc(positions: map<Entity, Position>, e: Entity, cx: real, cz: real, r: real) {
    e in positions && Near(positions[e].x - cx, positions[e].z - cz, r)
  }

  predicate Near(dx: real, dz: real, r: real) {
    Times(dx, dx) + Times(dz, dz) <= Times(r, r)
  }

  function Times(a: real, b: real): real {
    a * b
  }

  /** The disc is the Euclidean one, its rim included. */
  lemma DiscIsEuclidean(positions: map<Entity, Position>, e: Entity, cx: real, cz: real, r: real)
    ensures InDisc(positions, e, cx, cz, r) <==>
              e in positions && (positions[e].x - cx) * (positions[e].x - cx) + (positions[e].z - cz) * (positions[e].z - cz) <= r * r
  {
  }

  /** Each indexed entity is in exactly the bucket its recorded cell names, once; no bucket is empty. */
  predicate Indexed(buckets: map<Key, seq<Entity>>, entityCell: map<Entity, Key>) {
    (forall e <- entityCell :: entityCell[e] in buckets && e in buckets[entityCell[e]]) &&
    (forall k <- buckets :: buckets[k] != [] && Distinct(buckets[k])) &&
    (forall k <- buckets, e <- buckets[k] :: e in entityCell && entityCell[e] == k)
  }

  /** Every recorded cell is that of the entity's present position. */
  predicate Current(size: real, entityCell: map<Entity, Key>, positions: map<Entity, Position>)
    requires size > 0.0
  {
    forall e <- entityCell :: e in positions && entityCell[e] == KeyAt(size, positions[e].x, positions[e].z)
  }

  class SpatialGrid {
    const cellSize: real
    var buckets: map<Key, seq<Entity>>
    var entityCell: map<Entity, Key>

    ghost predicate Valid()
      reads this
    {
      cellSize > 0.0 && Indexed(buckets, entityCell)
    }

    constructor (size: real)
      ensures Valid() && entityCell == map[] && cellSize == if size <= 0.0 then DEFAULT_CELL_SIZE else size
    {
      cellSize := if size <= 0.0 then DEFAULT_CELL_SIZE else size;
      buckets, entityCell := map[], map[];
    }

    /** Appends to the bucket of `k`, creating it if need be. */
    method Insert(e: Entity, k: Key)
      requires Valid() && e !in entityCell
      modifies this`buckets, this`entityCell
      ensures Valid() && entityCell == old(entityCell)[e := k]
    {
      InsertIndexes(buckets, entityCell, e, k);
      entityCell := entityCell[e := k];
      buckets := buckets[k := (if k in buckets then buckets[k] else []) + [e]];
    }

    method UpdateEntity(w: World, e: Entity)
      requires Valid()
      modifies this`buckets, this`entityCell
      ensures Valid()
      ensures entityCell ==
              if e in w.positions then old(entityCell)[e := KeyAt(cellSize, w.positions[e].x, w.positions[e].z)]
              else old(entityCell) - {e}
    {
      hide Indexed, KeyAt;
      if e !in w.positions {
        RemoveEntity(e);
        return;
      }
      var p := w.positions[e];
      var k := KeyAt(cellSize, p.x, p.z);
      if e in entityCell && entityCell[e] == k {
        assert entityCell[e := k] == entityCell;
        return;
      }
      RemoveEntity(e);
      Insert(e, k);
      assert (old(entityCell) - {e})[e := k] == old(entityCell)[e := k];
    }

    /** Swaps the last of the bucket into the gap; an emptied bucket goes. */
    method RemoveEntity(e: Entity)
      requires Valid()
      modifies this`buckets, this`entityCell
      ensures Valid() && entityCell == old(entityCell) - {e}
    {
      if e !in entityCell {
        assert entityCell - {e} == entityCell;
        return;
      }
      InItsBucket(buckets, entityCell, e);
      hide Indexed;
      var k := entityCell[e];
      var sl := buckets[k];
      var at := IndexOf(sl, e);
      var last := |sl| - 1;
      var shrunk := sl[at := sl[last]][..last];
      RemoveIndexes(buckets, entityCell, e, at);
      entityCell := entityCell - {e};
      if |shrunk| == 0 {
        buckets := buckets - {k};
      } else {
        buckets := buckets[k := shrunk];
      }
    }

    method RebuildFromWorld(w: World)
      requires Valid()
      modifies this`buckets, this`entityCell
      ensures Valid()
      ensures entityCell == map e <- w.alive | e in w.positions :: KeyAt(cellSize, w.positions[e].x, w.positions[e].z)
    {
      hide KeyAt;
      buckets, entityCell := map[], map[];
      var rest := w.alive;
      while rest != {}
        invariant rest <= w.alive && Valid()
        invariant entityCell == map e <- w.alive | e !in rest && e in w.positions :: KeyAt(cellSize, w.positions[e].x, w.positions[e].z)
        decreases |rest|
      {
        var e :| e in rest;
        if e in w.positions {
          Insert(e, KeyAt(cellSize, w.positions[e].x, w.positions[e].z));
        }
        rest := rest - {e};
      }
    }

    /** Exactly the brute-force answer over the entities whose cells lie in the
        scanned square, none twice; a negative radius finds nobody. */
    method QueryRadius(w: World, cx: real, cz: real, r: real) returns (out: seq<Entity>)
      requires Valid()
      ensures Distinct(out)
      ensures r < 0.0 ==> out == []
      ensures r >= 0.0 ==> forall e :: e in out <==>
                e in entityCell && InDisc(w.positions, e, cx, cz, r) && InSquare(entityCell[e], Corner(cx, cz, -r), Corner(cx, cz, r))
      ensures r >= 0.0 && Current(cellSize, entityCell, w.positions) ==>
                forall e :: e in out <==> e in entityCell && InDisc(w.positions, e, cx, cz, r)
    {
      out := [];
      if r < 0.0 {
        return;
      }
      hide KeyAt, Near;
      var low, high := Corner(cx, cz, -r), Corner(cx, cz, r);
      var seen: set<Entity> := {};
      var ix := low.0;
      while ix <= high.0
        invariant Distinct(out) && forall e :: e in seen <==> e in out
        invariant forall e :: e in out <==> Hit(w.positions, e, cx, cz, r) && InSquare(entityCell[e], low, high) && entityCell[e].0 < ix
        decreases high.0 - ix
      {
        var iz := low.1;
        while iz <= high.1
          invariant Distinct(out) && forall e :: e in seen <==> e in out
          invariant forall e :: e in out <==>
                      Hit(w.positions, e, cx, cz, r) && InSquare(entityCell[e], low, high) &&
                      (entityCell[e].0 < ix || (entityCell[e].0 == ix && entityCell[e].1 < iz))
          decreases high.1 - iz
        {
          var bucket := if (ix, iz) in buckets then buckets[(ix, iz)] else [];
          var before := out;
          for i := 0 to |bucket|
            invariant Distinct(out) && forall e :: e in seen <==> e in out
            invariant forall e :: e in out <==> e in before || (e in bucket[..i] && Hit(w.positions, e, cx, cz, r))
          {
            var e := bucket[i];
            if e !in seen && e in w.positions && Near(w.positions[e].x - cx, w.positions[e].z - cz, r) {
              seen := seen + {e};
              out := out + [e];
            }
          }
          assert bucket[..|bucket|] == bucket;
          iz := iz + 1;
        }
        ix := ix + 1;
      }
      if Current(cellSize, entityCell, w.positions) {
        forall e | e in entityCell && InDisc(w.positions, e, cx, cz, r) ensures InSquare(entityCell[e], low, high) {
          DiscInSquare(cellSize, w.positions[e].x, w.positions[e].z, cx, cz, r);
        }
      }
    }

    function Corner(cx: real, cz: real, d: real): Key
      requires cellSize > 0.0
    {
      KeyAt(cellSize, cx + d, cz + d)
    }

    predicate Hit(positions: map<Entity, Position>, e: Entity, cx: real, cz: real, r: real)
      reads this`entityCell
    {
      e in entityCell && InDisc(positions, e, cx, cz, r)
    }
  }

  method IndexOf(s: seq<Entity>, e: Entity) returns (at: nat)
    requires e in s
    ensures at < |s| && s[at] == e && e !in s[..at]
  {
    at := 0;
    while s[at] != e
      invariant at < |s| && e !in s[..at]
      decreases |s| - at
    {
      at := at + 1;
    }
  }

  lemma InItsBucket(buckets: map<Key, seq<Entity>>, entityCell: map<Entity, Key>, e: Entity)
    requires Indexed(buckets, entityCell) && e in entityCell
    ensures entityCell[e] in buckets && e in buckets[entityCell[e]]
  {
  }

  predicate InSquare(k: Key, low: Key, high: Key) {
    low.0 <= k.0 <= high.0 && low.1 <= k.1 <= high.1
  }

  lemma InsertIndexes(buckets: map<Key, seq<Entity>>, entityCell: map<Entity, Key>, e: Entity, k: Key)
    requires Indexed(buckets, entityCell) && e !in entityCell
    ensures Indexed(buckets[k := (if k in buckets then buckets[k] else []) + [e]], entityCell[e := k])
  {
    var b := buckets[k := (if k in buckets then buckets[k] else []) + [e]];
    assert forall x | k in buckets && x in buckets[k] :: x in b[k];
    assert k in buckets ==> e !in buckets[k];
  }

  /** The swap-remove leaves the bucket's other members, each once. */
  lemma SwapRemoved(s: seq<Entity>, at: nat)
    requires at < |s| && Distinct(s)
    ensures var t := s[at := s[|s| - 1]][..|s| - 1];
            Distinct(t) && forall e :: e in t <==> e in s && e != s[at]
  {
    var t := s[at := s[|s| - 1]][..|s| - 1];
    forall e | e in s && e != s[at] ensures e in t {
      var i :| 0 <= i < |s| && s[i] == e;
      if i == |s| - 1 {
        assert t[at] == e;
      } else {
        assert t[i] == e;
      }
    }
  }

  lemma RemoveIndexes(buckets: map<Key, seq<Entity>>, entityCell: map<Entity, Key>, e: Entity, at: nat)
    requires Indexed(buckets, entityCell) && e in entityCell
    requires var sl := buckets[entityCell[e]]; at < |sl| && sl[at] == e
    ensures var k := entityCell[e];
            var sl := buckets[k];
            var shrunk := sl[at := sl[|sl| - 1]][..|sl| - 1];
            Indexed(if |shrunk| == 0 then buckets - {k} else buckets[k := shrunk], entityCell - {e})
  {
    SwapRemoved(buckets[entityCell[e]], at);
  }

  // ---------------------------------------------------------------- the scanned square covers the disc

  lemma SideOfSquare(d: real, r: real)
    requires r >= 0.0 && Times(d, d) <= Times(r, r)
    ensures -r <= d <= r
  {
    hide Times;
    if d > r {
      Squares(r, d);
    } else if d < -r {
      SquareOfNegative(d);
      Squares(r, -d);
    }
  }

  lemma SquareOfNegative(d: real)
    ensures Times(-d, -d) == Times(d, d) >= 0.0
  {
  }

  lemma Squares(a: real, b: real)
    requires 0.0 <= a < b
    ensures Times(a, a) < Times(b, b)
  {
    hide Times;
    TimesGrows(b, a, b);
    TimesKeepsOrder(a, a, b);
    TimesCommutes(a, b);
  }

  lemma TimesCommutes(a: real, b: real)
    ensures Times(a, b) == Times(b, a)
  {
  }

  lemma TimesKeepsOrder(c: real, x: real, y: real)
    requires 0.0 <= c && x <= y
    ensures Times(c, x) <= Times(c, y)
  {
    assert c * (y - x) >= 0.0;
  }

  lemma TimesGrows(c: real, x: real, y: real)
    requires 0.0 < c && x < y
    ensures Times(c, x) < Times(c, y)
  {
    assert c * (y - x) > 0.0;
  }

  lemma FloorGrows(a: real, b: real, size: real)
    requires size > 0.0 && a <= b
    ensures (a / size).Floor <= (b / size).Floor
  {
    Quotients(a, b, size);
  }

  lemma Quotients(a: real, b: real, size: real)
    requires size > 0.0 && a <= b
    ensures a / size <= b / size
  {
    var x, y := a / size, b / size;
    assert Times(size, x) == a && Times(size, y) == b;
    hide Times;
    if x > y {
      TimesGrows(size, y, x);
    }
  }

  lemma DiscInSquare(size: real, x: real, z: real, cx: real, cz: real, r: real)
    requires size > 0.0 && r >= 0.0 && Near(x - cx, z - cz, r)
    ensures InSquare(KeyAt(size, x, z), KeyAt(size, cx + -r, cz + -r), KeyAt(size, cx + r, cz + r))
  {
    NearSides(x - cx, z - cz, r);
    FloorGrows(cx + -r, x, size);
    FloorGrows(x, cx + r, size);
    FloorGrows(cz + -r, z, size);
    FloorGrows(z, cz + r, size);
  }

  lemma NearSides(dx: real, dz: real, r: real)
    requires r >= 0.0 && Near(dx, dz, r)
    ensures -r <= dx <= r && -r <= dz <= r
  {
    hide Times;
    SquareOfNegative(dx);
    SquareOfNegative(dz);
    SideOfSquare(dx, r);
    SideOfSquare(dz, r);
  }
}
