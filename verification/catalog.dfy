/** The in-memory cell catalogue, the most-specific lookup, and what a split
    followed by a merge does to it. */
module Catalog {
  import opened Text
  import opened CellPath
  import opened Geometry
  import opened Siblings

  type Cells = map<string, CellSpec>

  datatype CatalogError = InvalidSpec | InvalidBounds

  /** What registration guarantees of every entry. */
  predicate Sound(cells: Cells) {
    forall id <- cells :: id != "" && cells[id].id == id && cells[id].bounds.Some? && Proper(cells[id].bounds.value)
  }

  predicate Covers(c: CellSpec, x: real, z: real) {
    c.bounds.Some? && Contains(c.bounds.value, x, z)
  }

  predicate Covered(cells: Cells, x: real, z: real) {
    exists id <- cells :: Covers(cells[id], x, z)
  }

  /** The entry covers the point and no covering entry is deeper. */
  predicate Wins(cells: Cells, id: string, x: real, z: real) {
    id in cells && Covers(cells[id], x, z) &&
    forall other <- cells :: Covers(cells[other], x, z) ==> cells[other].level <= cells[id].level
  }

  /** On a shared edge several cells of one level may win; the lookup may return any of them. */
  function Winners(cells: Cells, x: real, z: real): set<string> {
    set id <- cells | Wins(cells, id, x, z)
  }

  /** Every entry exactly once, in some order. */
  predicate IsListing(out: seq<Option<CellSpec>>, cells: Cells) {
    (forall i :: 0 <= i < |out| ==> out[i].Some? && out[i].value.id in cells && cells[out[i].value.id] == out[i].value) &&
    (forall i, j :: 0 <= i < j < |out| ==> out[i] != out[j]) &&
    (forall id <- cells :: Some(cells[id]) in out)
  }

  class Memory {
    var cells: Cells

    ghost predicate Valid()
      reads this
    {
      Sound(cells)
    }

    constructor ()
      ensures Valid() && cells == map[]
    {
      cells := map[];
    }

    method Register(spec: Option<CellSpec>) returns (r: Option<CatalogError>)
      requires Valid()
      modifies this
      ensures Valid()
      ensures r == Some(InvalidSpec) <==> spec.None? || spec.value.id == "" || spec.value.bounds.None?
      ensures r == Some(InvalidBounds) ==> !Proper(spec.value.bounds.value)
      ensures r.None? ==> Proper(spec.value.bounds.value) && cells == old(cells)[spec.value.id := spec.value]
      ensures r.Some? ==> cells == old(cells)
    {
      if spec.None? || spec.value.id == "" || spec.value.bounds.None? {
        return Some(InvalidSpec);
      }
      var b := spec.value.bounds.value;
      if b.xMin >= b.xMax || b.zMin >= b.zMax {
        return Some(InvalidBounds);
      }
      cells := cells[spec.value.id := spec.value];
      r := None;
    }

    /** Removing an id that is not registered succeeds. */
    method Deregister(id: string) returns (r: Option<CatalogError>)
      requires Valid()
      modifies this
      ensures Valid()
      ensures r == (if id == "" then Some(InvalidSpec) else None)
      ensures cells == old(cells) - {id}
    {
      if id == "" {
        assert cells == cells - {id};
        return Some(InvalidSpec);
      }
      cells := cells - {id};
      r := None;
    }

    method List() returns (out: seq<Option<CellSpec>>)
      requires Valid()
      ensures IsListing(out, cells)
    {
      out := [];
      var rest := cells.Keys;
      while rest != {}
        invariant rest <= cells.Keys
        invariant forall i :: 0 <= i < |out| ==> out[i].Some? && out[i].value.id in cells.Keys - rest && cells[out[i].value.id] == out[i].value
        invariant forall i, j :: 0 <= i < j < |out| ==> out[i] != out[j]
        invariant forall id <- cells :: id !in rest ==> Some(cells[id]) in out
        decreases |rest|
      {
        var id :| id in rest;
        rest := rest - {id};
        out := out + [Some(cells[id])];
      }
    }

    method ResolveMostSpecific(x: real, z: real) returns (best: Option<CellSpec>)
      requires Valid()
      ensures best.None? <==> !Covered(cells, x, z)
      ensures best.Some? ==> Wins(cells, best.value.id, x, z) && cells[best.value.id] == best.value
    {
      best := None;
      var rest := cells.Keys;
      while rest != {}
        invariant rest <= cells.Keys
        invariant best.None? ==> forall id <- cells :: id !in rest ==> !Covers(cells[id], x, z)
        invariant best.Some? ==> best.value.id in cells && cells[best.value.id] == best.value && Covers(best.value, x, z)
        invariant best.Some? ==> forall id <- cells :: id !in rest && Covers(cells[id], x, z) ==> cells[id].level <= best.value.level
        decreases |rest|
      {
        var id :| id in rest;
        rest := rest - {id};
        var c := cells[id];
        if Covers(c, x, z) && (best.None? || c.level > best.value.level) {
          best := Some(c);
        }
      }
    }
  }

  // ---------------------------------------------------------------- lookups over a listing

  /** Entry `i` is the first of the deepest entries that cover the point. */
  predicate FirstDeepest(list: seq<Option<CellSpec>>, i: nat, x: real, z: real) {
    i < |list| && list[i].Some? && Covers(list[i].value, x, z) &&
    forall j :: 0 <= j < |list| && list[j].Some? && Covers(list[j].value, x, z) ==>
      (list[j].value.level < list[i].value.level || (list[j].value.level == list[i].value.level && i <= j))
  }

  method PickBestCell(list: seq<Option<CellSpec>>, x: real, z: real) returns (best: Option<CellSpec>)
    ensures best.None? <==> forall j :: 0 <= j < |list| && list[j].Some? ==> !Covers(list[j].value, x, z)
    ensures best.Some? ==> exists i: nat :: FirstDeepest(list, i, x, z) && list[i] == best
  {
    best := None;
    ghost var at: nat := 0;
    for k := 0 to |list|
      invariant best.None? <==> forall j :: 0 <= j < k && list[j].Some? ==> !Covers(list[j].value, x, z)
      invariant best.Some? ==> FirstDeepest(list[..k], at, x, z) && list[at] == best
    {
      var c := list[k];
      if c.Some? && Covers(c.value, x, z) && (best.None? || c.value.level > best.value.level) {
        best, at := c, k;
      }
    }
    assert list[..|list|] == list;
  }

  /** Both lookups agree: what is picked from any listing of the catalogue wins in it. */
  lemma PickWins(list: seq<Option<CellSpec>>, cells: Cells, i: nat, x: real, z: real)
    requires IsListing(list, cells) && Sound(cells) && FirstDeepest(list, i, x, z)
    ensures Wins(cells, list[i].value.id, x, z)
  {
    forall other | other in cells && Covers(cells[other], x, z)
      ensures cells[other].level <= list[i].value.level
    {
      var j :| 0 <= j < |list| && list[j] == Some(cells[other]);
    }
  }

  method FindCellByID(m: Memory, id: string) returns (r: Option<CellSpec>)
    requires m.Valid()
    ensures r == if id in m.cells then Some(m.cells[id]) else None
  {
    if id == "" {
      return None;
    }
    var list := m.List();
    for i := 0 to |list|
      invariant forall j :: 0 <= j < i ==> list[j].value.id != id
    {
      if list[i].Some? && list[i].value.id == id {
        return list[i];
      }
    }
    r := None;
  }

  // ---------------------------------------------------------------- split, then merge

  function RegisterAll(cells: Cells, specs: seq<CellSpec>): Cells {
    if specs == [] then cells
    else RegisterAll(cells, specs[..|specs| - 1])[specs[|specs| - 1].id := specs[|specs| - 1]]
  }

  function DeregisterAll(cells: Cells, ids: seq<string>): Cells {
    if ids == [] then cells else DeregisterAll(cells, ids[..|ids| - 1]) - {ids[|ids| - 1]}
  }

  /** The four registered children of a split: planned ids, boxes and level; any endpoints. */
  predicate AreChildren(kids: seq<CellSpec>, path: Path, parent: Bounds, level: int) {
    |kids| == 4 && forall q: Quad ::
      kids[q].id == Format(path + [q]) && kids[q].bounds == Some(SplitFour(parent)[q]) && kids[q].level == level + 1
  }

  predicate HasParent(cells: Cells, parentID: string, path: Path, b: Bounds, level: int) {
    Sound(cells) && parentID in cells && cells[parentID].bounds == Some(b) && cells[parentID].level == level &&
    PathOf(parentID) == Some(path)
  }

  lemma {:induction false} RegisteredEntries(cells: Cells, specs: seq<CellSpec>)
    requires forall i, j :: 0 <= i < j < |specs| ==> specs[i].id != specs[j].id
    ensures forall id <- RegisterAll(cells, specs) :: id in cells || exists i :: 0 <= i < |specs| && specs[i].id == id
    ensures forall i :: 0 <= i < |specs| ==> specs[i].id in RegisterAll(cells, specs) && RegisterAll(cells, specs)[specs[i].id] == specs[i]
    ensures forall id <- cells :: (forall i :: 0 <= i < |specs| ==> specs[i].id != id) ==>
              id in RegisterAll(cells, specs) && RegisterAll(cells, specs)[id] == cells[id]
  {
    if specs != [] {
      var front, last := specs[..|specs| - 1], specs[|specs| - 1];
      RegisteredEntries(cells, front);
      assert forall i :: 0 <= i < |front| ==> front[i] == specs[i];
    }
  }

  lemma {:induction false} RemainingEntries(cells: Cells, ids: seq<string>)
    ensures forall id :: id in DeregisterAll(cells, ids) <==> id in cells && id !in ids
    ensures forall id <- DeregisterAll(cells, ids) :: DeregisterAll(cells, ids)[id] == cells[id]
  {
    if ids != [] {
      var front, last := ids[..|ids| - 1], ids[|ids| - 1];
      RemainingEntries(cells, front);
      assert ids == front + [last];
    }
  }

  /** A child's id is no other child's, and not the parent's. */
  lemma ChildIDs(kids: seq<CellSpec>, path: Path, b: Bounds, level: int, parentID: string)
    requires AreChildren(kids, path, b, level) && PathOf(parentID) == Some(path)
    ensures forall i, j :: 0 <= i < j < 4 ==> kids[i].id != kids[j].id
    ensures forall q: Quad :: kids[q].id != parentID
  {
    hide Format, PathOf, SplitFour;
    forall i: Quad, j: Quad | i < j ensures kids[i].id != kids[j].id {
      if kids[i].id == kids[j].id {
        ChildIDsDiffer(path, i, path, j);
      }
    }
    forall q: Quad ensures kids[q].id != parentID {
      ParseAfterFormat(path + [q]);
      assert path + [q] != path;
    }
  }

  /** Registering the children sends every point of the parent's closed box one
      level deeper or more, whatever else is registered. */
  lemma SplitDeepens(cells: Cells, parentID: string, path: Path, b: Bounds, level: int, kids: seq<CellSpec>,
                     x: real, z: real)
    requires HasParent(cells, parentID, path, b, level) && AreChildren(kids, path, b, level) && Contains(b, x, z)
    ensures forall id <- Winners(RegisterAll(cells, kids), x, z) :: RegisterAll(cells, kids)[id].level > level
    ensures kids[Quadrant(x, z, b)].id in RegisterAll(cells, kids) && Covers(kids[Quadrant(x, z, b)], x, z)
  {
    ChildIDs(kids, path, b, level, parentID);
    RegisteredEntries(cells, kids);
    QuadrantContains(b, x, z);
    hide SplitFour, Quadrant;
    var q := Quadrant(x, z, b);
    assert RegisterAll(cells, kids)[kids[q].id] == kids[q];
  }

  /** Outside the parent's closed box no winner changes. */
  lemma SplitLocal(cells: Cells, parentID: string, path: Path, b: Bounds, level: int, kids: seq<CellSpec>,
                   x: real, z: real)
    requires HasParent(cells, parentID, path, b, level) && AreChildren(kids, path, b, level) && !Contains(b, x, z)
    requires forall q: Quad :: kids[q].id !in cells
    ensures Winners(RegisterAll(cells, kids), x, z) == Winners(cells, x, z)
  {
    ChildIDs(kids, path, b, level, parentID);
    RegisteredEntries(cells, kids);
    forall q: Quad ensures !Covers(kids[q], x, z) {
      ChildShape(b, q);
    }
    hide SplitFour;
    var after := RegisterAll(cells, kids);
    forall id ensures id in cells && Covers(cells[id], x, z) <==> id in after && Covers(after[id], x, z) {
      if id in after && id !in cells {
        var i :| 0 <= i < 4 && kids[i].id == id;
        assert after[id] == kids[i];
      }
    }
    assert forall id <- cells :: id in after && after[id] == cells[id];
  }

  lemma ChildInside(b: Bounds, q: Quad, x: real, z: real)
    requires Proper(b) && Contains(SplitFour(b)[q], x, z)
    ensures Contains(b, x, z)
  {
    ChildShape(b, q);
  }

  /** Removing any of the children, in any order, one at a time: as long as the
      parent stays registered, a point that was covered stays covered. */
  lemma TeardownCovers(cells: Cells, parentID: string, path: Path, b: Bounds, level: int, kids: seq<CellSpec>,
                       removed: seq<string>, x: real, z: real)
    requires HasParent(cells, parentID, path, b, level) && AreChildren(kids, path, b, level)
    requires forall id <- removed :: exists q: Quad :: id == kids[q].id
    requires Covered(RegisterAll(cells, kids), x, z)
    ensures forall k :: 0 <= k <= |removed| ==> Covered(DeregisterAll(RegisterAll(cells, kids), removed[..k]), x, z)
  {
    hide SplitFour, Format, PathOf, TrimSpace, RegisterAll, DeregisterAll;
    ChildIDs(kids, path, b, level, parentID);
    RegisteredEntries(cells, kids);
    var split := RegisterAll(cells, kids);
    var id :| id in split && Covers(split[id], x, z);
    if q: Quad :| id == kids[q].id {
      assert split[id] == kids[q];
      ChildInside(b, q, x, z);
      id := parentID;
    }
    assert id !in removed;
    forall k | 0 <= k <= |removed| ensures Covered(DeregisterAll(split, removed[..k]), x, z) {
      RemainingEntries(split, removed[..k]);
      assert id in DeregisterAll(split, removed[..k]);
    }
  }

  /** Splitting and merging back restores the catalogue, hence every lookup,
      exactly when none of the children's ids was registered before. */
  lemma SplitThenMerge(cells: Cells, parentID: string, path: Path, b: Bounds, level: int, kids: seq<CellSpec>,
                       removed: seq<string>)
    requires HasParent(cells, parentID, path, b, level) && AreChildren(kids, path, b, level)
    requires forall id :: id in removed <==> exists q: Quad :: id == kids[q].id
    ensures DeregisterAll(RegisterAll(cells, kids), removed) == cells <==> forall q: Quad :: kids[q].id !in cells
    ensures (forall q: Quad :: kids[q].id !in cells) ==>
              forall x: real, z: real :: Winners(DeregisterAll(RegisterAll(cells, kids), removed), x, z) == Winners(cells, x, z)
  {
    hide SplitFour, Format, PathOf, TrimSpace, RegisterAll, DeregisterAll, Winners;
    ChildIDs(kids, path, b, level, parentID);
    RegisteredEntries(cells, kids);
    RemainingEntries(RegisterAll(cells, kids), removed);
    var split, merged := RegisterAll(cells, kids), DeregisterAll(RegisterAll(cells, kids), removed);
    forall q: Quad ensures kids[q].id !in merged {
      assert kids[q].id in removed;
    }
    if forall q: Quad :: kids[q].id !in cells {
      forall id ensures id in merged <==> id in cells {
        if id in split && id !in cells {
          var i :| 0 <= i < 4 && kids[i].id == id;
        }
        if id in cells {
          assert id !in removed;
        }
      }
      assert merged == cells;
    }
  }

  // ---------------------------------------------------------------- catalogues whose cells sit at their paths

  /** The entry carries a path id and that path's level and box. */
  predicate Placed(root: Bounds, c: CellSpec, path: Path) {
    c.id == Format(path) && c.bounds == Some(BoxAt(root, path)) && c.level == |path|
  }

  predicate WellPlaced(root: Bounds, cells: Cells) {
    Proper(root) &&
    forall id <- cells :: cells[id].id == id && PathOf(id).Some? && Placed(root, cells[id], PathOf(id).value)
  }

  lemma PlacedAt(root: Bounds, cells: Cells, path: Path)
    requires WellPlaced(root, cells) && Format(path) in cells
    ensures cells[Format(path)].bounds == Some(BoxAt(root, path)) && cells[Format(path)].level == |path|
    ensures PathOf(Format(path)) == Some(path)
  {
    ParseAfterFormat(path);
  }

  /** A cell that covers an interior point of the box at `path` is an ancestor,
      a descendant, or that very cell. */
  lemma CoveringIsRelated(root: Bounds, cells: Cells, path: Path, id: string, x: real, z: real)
    requires WellPlaced(root, cells) && id in cells && Covers(cells[id], x, z) && Interior(BoxAt(root, path), x, z)
    ensures PathOf(id).value <= path || path <= PathOf(id).value
    ensures cells[id].level == |PathOf(id).value|
  {
    MeetingIsRelated(root, path, PathOf(id).value, x, z);
  }

  /** No registered cell lies below `path`. */
  predicate Leaf(cells: Cells, path: Path) {
    forall id <- cells :: PathOf(id).Some? ==> !(path < PathOf(id).value)
  }

  /** In a leaf, before the split: it alone wins at each of its interior points. */
  lemma LeafWins(root: Bounds, cells: Cells, path: Path, x: real, z: real)
    requires WellPlaced(root, cells) && Format(path) in cells && Leaf(cells, path) && Interior(BoxAt(root, path), x, z)
    ensures Winners(cells, x, z) == {Format(path)}
  {
    hide Format, PathOf, BoxAt, TrimSpace;
    PlacedAt(root, cells, path);
    forall id | id in cells && Covers(cells[id], x, z) ensures id == Format(path) || cells[id].level < |path| {
      CoveringIsRelated(root, cells, path, id, x, z);
      if PathOf(id).value != path {
        assert !(path < PathOf(id).value);
      }
    }
    assert Wins(cells, Format(path), x, z);
  }

  /** After the split of a leaf: the winners at its interior points are exactly
      the children whose closed boxes hold the point. */
  lemma ChildrenWin(root: Bounds, cells: Cells, path: Path, kids: seq<CellSpec>, x: real, z: real)
    requires Sound(cells) && WellPlaced(root, cells) && Format(path) in cells && Leaf(cells, path)
    requires AreChildren(kids, path, BoxAt(root, path), |path|) && Interior(BoxAt(root, path), x, z)
    ensures forall q: Quad :: Wins(RegisterAll(cells, kids), kids[q].id, x, z) <==> Contains(SplitFour(BoxAt(root, path))[q], x, z)
    ensures forall id <- Winners(RegisterAll(cells, kids), x, z) :: exists q: Quad :: id == kids[q].id
  {
    PlacedHasParent(root, cells, path);
    hide *;
    var b := BoxAt(root, path);
    SplitEntries(cells, Format(path), path, b, |path|, kids);
    SplitDeepens(cells, Format(path), path, b, |path|, kids, x, z) by {
      InteriorIsContained(b, x, z);
    }
    var after := RegisterAll(cells, kids);
    forall id | id in after && Covers(after[id], x, z)
      ensures after[id].level <= |path| || exists q: Quad :: id == kids[q].id
    {
      if !exists q: Quad :: id == kids[q].id {
        OldCellsAreShallower(root, cells, path, id, x, z);
      }
    }
    OnlyKidsWin(after, kids, Quadrant(x, z, b), |path|, x, z);
    KidsCover(kids, path, b, |path|, x, z);
  }

  lemma InteriorIsContained(b: Bounds, x: real, z: real)
    requires Interior(b, x, z)
    ensures Contains(b, x, z)
  {
  }

  lemma KidsCover(kids: seq<CellSpec>, path: Path, b: Bounds, level: int, x: real, z: real)
    requires AreChildren(kids, path, b, level)
    ensures forall q: Quad :: Covers(kids[q], x, z) <==> Contains(SplitFour(b)[q], x, z)
  {
    hide SplitFour, Contains;
  }

  lemma PlacedHasParent(root: Bounds, cells: Cells, path: Path)
    requires Sound(cells) && WellPlaced(root, cells) && Format(path) in cells
    ensures HasParent(cells, Format(path), path, BoxAt(root, path), |path|)
  {
    PlacedAt(root, cells, path);
  }

  /** The entries after a split: the four children, and whatever was there. */
  lemma SplitEntries(cells: Cells, parentID: string, path: Path, b: Bounds, level: int, kids: seq<CellSpec>)
    requires HasParent(cells, parentID, path, b, level) && AreChildren(kids, path, b, level)
    ensures |kids| == 4
    ensures forall q: Quad :: kids[q].id in RegisterAll(cells, kids) && RegisterAll(cells, kids)[kids[q].id] == kids[q]
    ensures forall q: Quad :: kids[q].level == level + 1
    ensures forall id <- RegisterAll(cells, kids) | (forall q: Quad :: id != kids[q].id) :: id in cells && RegisterAll(cells, kids)[id] == cells[id]
  {
    hide Format, PathOf, SplitFour, RegisterAll;
    ChildIDs(kids, path, b, level, parentID);
    RegisteredEntries(cells, kids);
    forall id | id in RegisterAll(cells, kids) && forall q: Quad :: id != kids[q].id
      ensures id in cells && RegisterAll(cells, kids)[id] == cells[id]
    {
      assert forall i :: 0 <= i < 4 ==> kids[i].id != id;
    }
  }

  /** Where some child covers the point and everything else is shallower, exactly the covering children win. */
  lemma OnlyKidsWin(after: Cells, kids: seq<CellSpec>, hit: Quad, level: int, x: real, z: real)
    requires |kids| == 4 && forall q: Quad :: kids[q].id in after && after[kids[q].id] == kids[q] && kids[q].level == level + 1
    requires Covers(kids[hit], x, z)
    requires forall id <- after :: Covers(after[id], x, z) ==> after[id].level <= level || exists q: Quad :: id == kids[q].id
    ensures forall q: Quad :: Wins(after, kids[q].id, x, z) <==> Covers(kids[q], x, z)
    ensures forall id <- Winners(after, x, z) :: exists q: Quad :: id == kids[q].id
  {
    hide Covers;
    forall id | id in after && Covers(after[id], x, z) ensures after[id].level <= level + 1 {
      if q: Quad :| id == kids[q].id {
        assert after[id] == kids[q];
      }
    }
    assert Covers(after[kids[hit].id], x, z);
  }

  lemma OldCellsAreShallower(root: Bounds, cells: Cells, path: Path, id: string, x: real, z: real)
    requires WellPlaced(root, cells) && Leaf(cells, path) && Interior(BoxAt(root, path), x, z)
    requires id in cells && Covers(cells[id], x, z)
    ensures cells[id].level <= |path|
  {
    CoveringIsRelated(root, cells, path, id, x, z);
    assert !(path < PathOf(id).value);
  }
}
