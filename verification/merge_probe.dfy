/** The end of a merge: take the children out of the catalogue, then check by
    four look-ups that the parent answers for its box again. */
module MergeProbe {
  import opened Text
  import opened CellPath
  import opened Geometry
  import opened Siblings
  import opened Catalog

  datatype SwitchError = DeregisterFailed(child: string) | ParentMissing | BadParentID | ResolveMiss(q: Quad) | ResolveMismatch(q: Quad)

  /** The four look-ups: one at the centre of each quadrant of the parent. */
  predicate ProbesHit(cells: Cells, parentID: string, b: Bounds) {
    forall q: Quad :: var c := SplitFour(b)[q]; OnlyWinner(cells, parentID, MidX(c), MidZ(c))
  }

  predicate OnlyWinner(cells: Cells, id: string, x: real, z: real) {
    Wins(cells, id, x, z) && forall other <- cells :: Wins(cells, other, x, z) ==> other == id
  }

  /** The look-up may return any winner, so success is certain only when the
      parent is the only one; it is impossible when the parent is no winner at some centre. */
  method VerifyResolveToParent(m: Memory, parentID: string) returns (r: Option<SwitchError>)
    requires m.Valid()
    ensures parentID !in m.cells <==> r == Some(ParentMissing)
    ensures r.Some? ==> !r.value.DeregisterFailed?
    ensures parentID in m.cells ==> (r == Some(BadParentID) <==> PathOf(parentID).None?)
    ensures parentID in m.cells && PathOf(parentID).Some? && ProbesHit(m.cells, parentID, m.cells[parentID].bounds.value) ==> r.None?
    ensures r.None? ==> CanPass(m.cells, parentID, m.cells[parentID].bounds.value)
  {
    hide SplitFour, PathOf, MidX, MidZ, Wins, Format, Covered;
    var parent := FindCellByID(m, parentID);
    if parent.None? || parent.value.bounds.None? {
      return Some(ParentMissing);
    }
    var b := parent.value.bounds.value;
    var plan := ChildSpecsForSplit(parentID, Some(b), parent.value.level);
    if plan.Err? {
      return Some(BadParentID);
    }
    for q := 0 to 4
      invariant forall k: Quad :: k < q ==> var c := SplitFour(b)[k]; Wins(m.cells, parentID, MidX(c), MidZ(c))
    {
      var c := plan.value[q].bounds;
      assert c == SplitFour(b)[q];
      var got := m.ResolveMostSpecific(MidX(c), MidZ(c));
      if got.None? {
        WinnerCovers(m.cells, parentID, MidX(c), MidZ(c));
        return Some(ResolveMiss(q));
      }
      if got.value.id != parentID {
        return Some(ResolveMismatch(q));
      }
    }
    r := None;
  }

  lemma WinnerCovers(cells: Cells, id: string, x: real, z: real)
    ensures Wins(cells, id, x, z) ==> Covered(cells, x, z)
  {
  }

  /** Children leave the catalogue one by one, then the look-ups decide; only a
      verified switch asks for the children's processes to be deleted. */
  method SwitchTopologyAndTeardown(m: Memory, parentID: string, childIDs: seq<string>)
    returns (r: Option<SwitchError>, deleted: seq<string>)
    requires m.Valid()
    modifies m
    ensures m.Valid()
    ensures r.Some? && r.value.DeregisterFailed? <==> "" in childIDs
    ensures "" !in childIDs ==> m.cells == DeregisterAll(old(m.cells), childIDs)
    ensures "" !in childIDs && parentID in m.cells && PathOf(parentID).Some? ==>
              (ProbesHit(m.cells, parentID, m.cells[parentID].bounds.value) ==> r.None?)
    ensures r.None? ==> parentID in m.cells && PathOf(parentID).Some? && CanPass(m.cells, parentID, m.cells[parentID].bounds.value)
    ensures deleted == if r.None? then childIDs else []
    ensures forall root: Bounds, path: Path | PlacedParent(old(m.cells), root, path, parentID) ::
              (r.None? <==> "" !in childIDs && parentID in m.cells && Clear(m.cells, path))
    ensures forall root: Bounds, path: Path | ReadyToMerge(old(m.cells), root, path, parentID, childIDs) ::
              (r.None? <==> Leaf(m.cells, path))
  {
    hide *;
    ghost var before := m.cells;
    UnnamedChild(m.cells, parentID, childIDs);
    deleted := [];
    NothingRemoved(m.cells);
    for i := 0 to |childIDs|
      invariant m.Valid() && "" !in childIDs[..i] && m.cells == DeregisterAll(before, childIDs[..i])
    {
      var err := m.Deregister(childIDs[i]);
      if err.Some? {
        assert childIDs[i] == "";
        return Some(DeregisterFailed(childIDs[i])), [];
      }
      OneMoreRemoved(before, childIDs, i);
    }
    assert childIDs[..|childIDs|] == childIDs;
    r := VerifyResolveToParent(m, parentID);
    if r.None? {
      deleted := childIDs;
    }
    forall root: Bounds, path: Path | PlacedParent(before, root, path, parentID)
      ensures r.None? <==> parentID in m.cells && Clear(m.cells, path)
    {
      SwitchSucceedsWhenClear(before, root, path, parentID, childIDs);
    }
    forall root: Bounds, path: Path | ReadyToMerge(before, root, path, parentID, childIDs)
      ensures r.None? <==> Leaf(m.cells, path)
    {
      ReadyIsPlaced(before, root, path, parentID, childIDs);
      ClearIsLeaf(before, root, path, parentID, childIDs);
    }
  }

  lemma NothingRemoved(cells: Cells)
    ensures DeregisterAll(cells, []) == cells
  {
  }

  lemma OneMoreRemoved(cells: Cells, ids: seq<string>, i: nat)
    requires i < |ids|
    ensures DeregisterAll(cells, ids[..i + 1]) == DeregisterAll(cells, ids[..i]) - {ids[i]}
  {
    assert ids[..i + 1][..i] == ids[..i];
  }

  /** The parent's id is that of a path, in a catalogue whose cells sit at their paths. */
  ghost predicate PlacedParent(cells: Cells, root: Bounds, path: Path, parentID: string) {
    WellPlaced(root, cells) && parentID == Format(path)
  }

  /** A registered parent in a catalogue closed below it, and a list of children of the parent. */
  ghost predicate ReadyToMerge(cells: Cells, root: Bounds, path: Path, parentID: string, childIDs: seq<string>) {
    WellPlaced(root, cells) && ClosedBelow(cells, path) && parentID == Format(path) && parentID in cells &&
    forall c <- childIDs :: exists q: Quad :: c == Format(path + [q])
  }

  lemma UnnamedChild(cells: Cells, parentID: string, childIDs: seq<string>)
    ensures "" in childIDs ==> forall root: Bounds, path: Path :: !ReadyToMerge(cells, root, path, parentID, childIDs)
  {
    hide Format, WellPlaced, ClosedBelow;
    forall root: Bounds, path: Path | ReadyToMerge(cells, root, path, parentID, childIDs)
      ensures "" !in childIDs
    {
      forall c <- childIDs ensures c != "" {
        var q: Quad :| c == Format(path + [q]);
        FormatIsTrimmed(path + [q]);
      }
    }
  }

  lemma ReadyIsPlaced(cells: Cells, root: Bounds, path: Path, parentID: string, childIDs: seq<string>)
    requires ReadyToMerge(cells, root, path, parentID, childIDs)
    ensures PlacedParent(cells, root, path, parentID)
  {
    hide Format, WellPlaced;
  }

  lemma SwitchSucceedsWhenClear(before: Cells, root: Bounds, path: Path, parentID: string, childIDs: seq<string>)
    requires PlacedParent(before, root, path, parentID)
    ensures PathOf(parentID).Some?
    ensures var after := DeregisterAll(before, childIDs);
            parentID in after ==>
              (after[parentID].bounds.Some? &&
               (ProbesHit(after, parentID, after[parentID].bounds.value) <==> Clear(after, path)) &&
               (CanPass(after, parentID, after[parentID].bounds.value) <==> Clear(after, path)))
  {
    hide Format, PathOf, DeregisterAll, BoxAt, ProbesHit, CanPass, Clear;
    RemainingEntries(before, childIDs);
    var after := DeregisterAll(before, childIDs);
    assert WellPlaced(root, after);
    ParseAfterFormat(path);
    if parentID in after {
      PlacedAt(root, after, path);
      ProbesAreExact(after, root, path);
    }
  }

  lemma ClearIsLeaf(before: Cells, root: Bounds, path: Path, parentID: string, childIDs: seq<string>)
    requires ReadyToMerge(before, root, path, parentID, childIDs)
    ensures "" !in childIDs && parentID in DeregisterAll(before, childIDs)
    ensures Clear(DeregisterAll(before, childIDs), path) <==> Leaf(DeregisterAll(before, childIDs), path)
  {
    hide Format, PathOf, DeregisterAll, BoxAt, WellPlaced, ClosedBelow, Clear, Leaf;
    RemainingEntries(before, childIDs);
    var after := DeregisterAll(before, childIDs);
    var removed := set c <- childIDs;
    assert after == before - removed;
    forall c <- childIDs ensures c != "" && c != parentID {
      var q: Quad :| c == Format(path + [q]);
      FormatIsTrimmed(path + [q]);
      assert |path + [q]| != |path|;
      if c == parentID {
        FormatIsInjective(path + [q], path);
      }
    }
    ClosedLeavesBlocker(before, after, root, path, removed);
  }

  // ---------------------------------------------------------------- what four probes see

  /** A descendant with this relative path keeps the parent from a probe: a child,
      or a grandchild, or what lies in the corner of a grandchild that touches the centre. */
  predicate Blocks(rel: Path) {
    |rel| >= 1 && forall i :: 2 <= i < |rel| ==> rel[i] == 3 - rel[1]
  }

  predicate Blocker(path: Path, id: string) {
    PathOf(id).Some? && path < PathOf(id).value && Blocks(PathOf(id).value[|path|..])
  }

  predicate Clear(cells: Cells, path: Path) {
    forall id <- cells :: !Blocker(path, id)
  }

  /** The parent is among the winners at all four centres: the look-ups may all return it. */
  predicate CanPass(cells: Cells, parentID: string, b: Bounds) {
    forall q: Quad :: var c := SplitFour(b)[q]; Wins(cells, parentID, MidX(c), MidZ(c))
  }

  function CornerX(b: Bounds, k: Quad): real { if k % 2 == 0 then b.xMin else b.xMax }

  function CornerZ(b: Bounds, k: Quad): real { if k < 2 then b.zMin else b.zMax }

  /** A box's own corner lies only in the descendants of that corner. */
  lemma {:induction false} CornerCovered(b: Bounds, k: Quad, more: Path)
    requires Proper(b)
    ensures Contains(BoxAt(b, more), CornerX(b, k), CornerZ(b, k)) <==> forall i :: 0 <= i < |more| ==> more[i] == k
    decreases |more|
  {
    if more != [] {
      var c := SplitFour(b)[more[0]];
      ChildShape(b, more[0]);
      if more[0] == k {
        CornerCovered(c, k, more[1..]);
        assert CornerX(c, k) == CornerX(b, k) && CornerZ(c, k) == CornerZ(b, k);
        assert forall i :: 1 <= i < |more| ==> more[i] == more[1..][i - 1];
      } else {
        BoxInRoot(c, more[1..]);
        assert !Contains(c, CornerX(b, k), CornerZ(b, k));
      }
    }
  }

  /** The centre of a quadrant is the corner of each of its children that points inwards. */
  lemma CentreIsCorner(c: Bounds, r: Quad)
    ensures CornerX(SplitFour(c)[r], 3 - r) == MidX(c) && CornerZ(SplitFour(c)[r], 3 - r) == MidZ(c)
  {
  }

  lemma CentreCoveredExactly(b: Bounds, q: Quad, rest: Path)
    requires Proper(b)
    ensures var c := SplitFour(b)[q]; Contains(BoxAt(b, [q] + rest), MidX(c), MidZ(c)) <==> Blocks([q] + rest)
  {
    GrandchildrenMeetAtCentre(b, q);
    ChildShape(b, q);
    var c := SplitFour(b)[q];
    hide SplitFour, MidX, MidZ;
    assert ([q] + rest)[1..] == rest;
    assert BoxAt(b, [q] + rest) == BoxAt(c, rest);
    if rest != [] {
      var r: Quad, more := rest[0], rest[1..];
      ChildShape(c, r);
      CentreIsCorner(c, r);
      CornerCovered(SplitFour(c)[r], 3 - r, more);
      assert forall i :: 2 <= i < |[q] + rest| ==> ([q] + rest)[i] == more[i - 2];
      assert forall i :: 0 <= i < |more| ==> more[i] == ([q] + rest)[i + 2];
    }
  }

  /** No other quadrant's centre is covered. */
  lemma OtherCentres(b: Bounds, q: Quad, rest: Path, p: Quad)
    requires Proper(b) && p != q
    ensures var c := SplitFour(b)[p]; !Contains(BoxAt(b, [q] + rest), MidX(c), MidZ(c))
  {
    GrandchildrenMeetAtCentre(b, p);
    ChildShape(b, q);
    BoxInRoot(SplitFour(b)[q], rest);
    assert ([q] + rest)[1..] == rest;
    var c := SplitFour(b)[p];
    if Contains(BoxAt(b, [q] + rest), MidX(c), MidZ(c)) {
      ChildrenApart(b, q, p, MidX(c), MidZ(c));
    }
  }

  /** A registered descendant covers a probe exactly when its path blocks, and then the probe of its own quadrant. */
  lemma DescendantAtProbes(cells: Cells, root: Bounds, path: Path, id: string, p: Quad)
    requires WellPlaced(root, cells) && id in cells && PathOf(id).Some? && path < PathOf(id).value
    ensures cells[id].level > |path|
    ensures var c := SplitFour(BoxAt(root, path))[p];
            Covers(cells[id], MidX(c), MidZ(c)) <==> Blocker(path, id) && p == PathOf(id).value[|path|]
  {
    hide *;
    var b, deep := BoxAt(root, path), PathOf(id).value;
    var q, rest := deep[|path|], deep[|path| + 1..];
    PlacedHasPath(root, cells, id);
    PlacedIsProper(root, cells);
    BoxInRoot(root, path);
    assert deep[|path|..] == [q] + rest;
    assert deep == path + ([q] + rest);
    BoxOfConcat(root, path, [q] + rest);
    BlockerMeans(path, id);
    CoversBounds(cells[id], BoxAt(root, deep), MidX(SplitFour(b)[p]), MidZ(SplitFour(b)[p]));
    if p == q {
      CentreCoveredExactly(b, q, rest);
    } else {
      OtherCentres(b, q, rest, p);
    }
  }

  lemma BlockerMeans(path: Path, id: string)
    requires PathOf(id).Some? && path < PathOf(id).value
    ensures Blocker(path, id) <==> Blocks(PathOf(id).value[|path|..])
  {
    hide PathOf, Blocks;
  }

  lemma CoversBounds(c: CellSpec, b: Bounds, x: real, z: real)
    requires c.bounds == Some(b)
    ensures Covers(c, x, z) <==> Contains(b, x, z)
  {
    hide Contains;
  }

  lemma PlacedHasPath(root: Bounds, cells: Cells, id: string)
    requires WellPlaced(root, cells) && id in cells
    ensures PathOf(id).Some? && id == Format(PathOf(id).value)
    ensures cells[id].bounds == Some(BoxAt(root, PathOf(id).value)) && cells[id].level == |PathOf(id).value|
  {
    hide Format, PathOf, BoxAt;
  }

  /** With no blocker, whatever else covers a probe is shallower than the parent. */
  lemma ClearIsShallow(cells: Cells, root: Bounds, path: Path, p: Quad, id: string)
    requires WellPlaced(root, cells) && Clear(cells, path) && id in cells
    requires var c := SplitFour(BoxAt(root, path))[p]; Covers(cells[id], MidX(c), MidZ(c))
    ensures id == Format(path) || cells[id].level < |path|
  {
    hide *;
    NoBlocker(cells, path, id);
    PlacedIsProper(root, cells);
    BoxInRoot(root, path);
    GrandchildrenMeetAtCentre(BoxAt(root, path), p);
    var c := SplitFour(BoxAt(root, path))[p];
    CoveringIsRelated(root, cells, path, id, MidX(c), MidZ(c));
    PlacedHasPath(root, cells, id);
    var deep := PathOf(id).value;
    if path < deep {
      DescendantAtProbes(cells, root, path, id, p);
    } else if |deep| >= |path| {
      assert deep == path;
    }
  }

  lemma NoBlocker(cells: Cells, path: Path, id: string)
    requires Clear(cells, path) && id in cells
    ensures !Blocker(path, id)
  {
    hide Blocker;
  }

  /** With no blocker, the parent is the only winner at every probe. */
  lemma ClearPassesProbes(cells: Cells, root: Bounds, path: Path, p: Quad)
    requires WellPlaced(root, cells) && Format(path) in cells && Clear(cells, path)
    ensures var c := SplitFour(BoxAt(root, path))[p]; OnlyWinner(cells, Format(path), MidX(c), MidZ(c))
  {
    hide *;
    PlacedIsProper(root, cells);
    BoxInRoot(root, path);
    PlacedAt(root, cells, path);
    GrandchildrenMeetAtCentre(BoxAt(root, path), p);
    var c := SplitFour(BoxAt(root, path))[p];
    forall id | id in cells && Covers(cells[id], MidX(c), MidZ(c))
      ensures id == Format(path) || cells[id].level < |path|
    {
      ClearIsShallow(cells, root, path, p, id);
    }
    AloneAt(cells, Format(path), BoxAt(root, path), MidX(c), MidZ(c));
  }

  lemma AloneAt(cells: Cells, id: string, b: Bounds, x: real, z: real)
    requires id in cells && cells[id].bounds == Some(b) && Interior(b, x, z)
    requires forall other | other in cells && Covers(cells[other], x, z) :: other == id || cells[other].level < cells[id].level
    ensures OnlyWinner(cells, id, x, z)
  {
    assert Covers(cells[id], x, z);
  }

  /** One blocker takes the probe of its quadrant away. */
  lemma BlockerTakesProbe(cells: Cells, root: Bounds, path: Path, id: string)
    requires WellPlaced(root, cells) && Format(path) in cells && id in cells && Blocker(path, id)
    ensures !CanPass(cells, Format(path), BoxAt(root, path))
  {
    PlacedAt(root, cells, path);
    assert PathOf(id).Some? && path < PathOf(id).value;
    hide Format, PathOf, BoxAt, WellPlaced, SplitFour, MidX, MidZ, Blocker;
    var q := PathOf(id).value[|path|];
    DescendantAtProbes(cells, root, path, id, q);
    var c := SplitFour(BoxAt(root, path))[q];
    assert !Wins(cells, Format(path), MidX(c), MidZ(c));
  }

  /** What the four probes decide, in any catalogue whose cells sit at their
      paths: the parent can pass them, and is then their only answer, exactly
      when no registered cell is a child, a grandchild, or in the inward corner
      of a grandchild. */
  lemma ProbesAreExact(cells: Cells, root: Bounds, path: Path)
    requires WellPlaced(root, cells) && Format(path) in cells
    ensures CanPass(cells, Format(path), BoxAt(root, path)) <==> Clear(cells, path)
    ensures ProbesHit(cells, Format(path), BoxAt(root, path)) <==> Clear(cells, path)
  {
    hide Format, PathOf, BoxAt, WellPlaced, SplitFour, MidX, MidZ, Wins, Blocker;
    if Clear(cells, path) {
      forall q: Quad ensures var c := SplitFour(BoxAt(root, path))[q]; OnlyWinner(cells, Format(path), MidX(c), MidZ(c)) {
        ClearPassesProbes(cells, root, path, q);
      }
    } else {
      var id :| id in cells && Blocker(path, id);
      BlockerTakesProbe(cells, root, path, id);
    }
  }

  lemma PlacedIsProper(root: Bounds, cells: Cells)
    ensures WellPlaced(root, cells) ==> Proper(root)
  {
  }

  /** What the probes are for: everywhere inside its box the parent alone answers exactly when it has no descendant. */
  lemma LeafIsResolved(cells: Cells, root: Bounds, path: Path)
    requires WellPlaced(root, cells) && Format(path) in cells
    ensures (forall x: real, z: real :: ResolvesInside(cells, root, path, x, z)) <==> Leaf(cells, path)
  {
    hide Format, PathOf, BoxAt, WellPlaced, Winners;
    if Leaf(cells, path) {
      forall x: real, z: real ensures ResolvesInside(cells, root, path, x, z) {
        if Interior(BoxAt(root, path), x, z) {
          LeafWins(root, cells, path, x, z);
        }
      }
    } else {
      var id :| id in cells && PathOf(id).Some? && path < PathOf(id).value;
      DescendantHides(cells, root, path, id);
    }
  }

  predicate ResolvesInside(cells: Cells, root: Bounds, path: Path, x: real, z: real) {
    Interior(BoxAt(root, path), x, z) ==> Winners(cells, x, z) == {Format(path)}
  }

  /** The parent is no winner at the centre of a descendant. */
  lemma DescendantHides(cells: Cells, root: Bounds, path: Path, id: string)
    requires WellPlaced(root, cells) && Format(path) in cells && id in cells && PathOf(id).Some? && path < PathOf(id).value
    ensures var c := BoxAt(root, PathOf(id).value); !ResolvesInside(cells, root, path, MidX(c), MidZ(c))
  {
    hide *;
    PlacedAt(root, cells, path);
    PlacedIsProper(root, cells);
    PlacedHasPath(root, cells, id);
    BoxInRoot(root, PathOf(id).value);
    DescendantInside(root, path, PathOf(id).value);
    DeeperHides(cells, Format(path), id, BoxAt(root, path), BoxAt(root, PathOf(id).value));
    var c := BoxAt(root, PathOf(id).value);
    NotResolved(cells, root, path, MidX(c), MidZ(c));
  }

  lemma DeeperHides(cells: Cells, id: string, deep: string, outer: Bounds, inner: Bounds)
    requires id in cells && deep in cells && cells[deep].level > cells[id].level && cells[deep].bounds == Some(inner)
    requires Proper(inner) && Within(inner, outer)
    ensures Interior(outer, MidX(inner), MidZ(inner)) && id !in Winners(cells, MidX(inner), MidZ(inner))
  {
    assert Covers(cells[deep], MidX(inner), MidZ(inner));
  }

  lemma NotResolved(cells: Cells, root: Bounds, path: Path, x: real, z: real)
    requires Interior(BoxAt(root, path), x, z) && Format(path) !in Winners(cells, x, z)
    ensures !ResolvesInside(cells, root, path, x, z)
  {
    hide Format, BoxAt, Winners;
  }

  // ---------------------------------------------------------------- four probes suffice below closed parents

  /** Below `path`, whatever is registered has all its ancestors down from `path` registered. */
  predicate ClosedBelow(cells: Cells, path: Path) {
    forall id <- cells, k: nat | PathOf(id).Some? && path <= PathOf(id).value && |path| <= k <= |PathOf(id).value| ::
      Format(PathOf(id).value[..k]) in cells
  }

  /** Removing only children of the parent cannot hide a deeper cell from the
      probes: its ancestor two levels down is still there, and covers a centre. */
  lemma GrandchildRemains(before: Cells, after: Cells, root: Bounds, path: Path, removed: set<string>, id: string)
    requires WellPlaced(root, before) && ClosedBelow(before, path)
    requires forall c <- removed :: exists q: Quad :: c == Format(path + [q])
    requires after == before - removed
    requires id in after && PathOf(id).Some? && path < PathOf(id).value && |PathOf(id).value| >= |path| + 2
    ensures Format(PathOf(id).value[..|path| + 2]) in after
  {
    hide Format, PathOf, BoxAt, WellPlaced;
    var g := PathOf(id).value[..|path| + 2];
    assert Format(g) in before;
    if Format(g) in removed {
      var q: Quad :| Format(g) == Format(path + [q]);
      FormatIsInjective(g, path + [q]);
    }
  }

  /** Closed below the parent, any descendant that remains has a child or grandchild of the parent beside it. */
  lemma ClosedLeavesBlocker(before: Cells, after: Cells, root: Bounds, path: Path, removed: set<string>)
    requires WellPlaced(root, before) && ClosedBelow(before, path)
    requires forall c <- removed :: exists q: Quad :: c == Format(path + [q])
    requires after == before - removed
    ensures Clear(after, path) <==> Leaf(after, path)
  {
    hide Format, PathOf, WellPlaced, ClosedBelow, Blocks;
    if id :| id in after && PathOf(id).Some? && path < PathOf(id).value {
      var deep := PathOf(id).value;
      if |deep| >= |path| + 2 {
        GrandchildRemains(before, after, root, path, removed, id);
        var g := deep[..|path| + 2];
        ParseAfterFormat(g);
        ShortBlocks(g[|path|..]);
        assert Blocker(path, Format(g));
      } else {
        ShortBlocks(deep[|path|..]);
        assert Blocker(path, id);
      }
    }
  }

  lemma ShortBlocks(rel: Path)
    requires 1 <= |rel| <= 2
    ensures Blocks(rel)
  {
  }

  /** Four probes suffice below a parent whose descendants have all their
      ancestors registered: after any children have been deregistered, the parent
      can win all four exactly when no descendant is left, and then it is the only
      winner at every interior point of its box. */
  lemma FourProbesSuffice(before: Cells, after: Cells, root: Bounds, path: Path, removed: set<string>)
    requires WellPlaced(root, before) && ClosedBelow(before, path)
    requires forall c <- removed :: exists q: Quad :: c == Format(path + [q])
    requires after == before - removed && Format(path) in after
    ensures CanPass(after, Format(path), BoxAt(root, path)) <==> Leaf(after, path)
    ensures ProbesHit(after, Format(path), BoxAt(root, path)) <==> Leaf(after, path)
    ensures Leaf(after, path) ==>
              forall x: real, z: real :: Interior(BoxAt(root, path), x, z) ==> Winners(after, x, z) == {Format(path)}
  {
    assert WellPlaced(root, after);
    hide Format, PathOf, BoxAt, WellPlaced, ClosedBelow, CanPass, ProbesHit, Winners, Clear, Leaf;
    ProbesAreExact(after, root, path);
    ClosedLeavesBlocker(before, after, root, path, removed);
    LeafIsResolved(after, root, path);
    if Leaf(after, path) {
      forall x: real, z: real | Interior(BoxAt(root, path), x, z) ensures Winners(after, x, z) == {Format(path)} {
        assert ResolvesInside(after, root, path, x, z);
      }
    }
  }

  const ORPHAN: Path := [0, 0, 0]
  const ARENA := Bounds(0.0, 8.0, 0.0, 8.0)
  const CORNER := Bounds(0.0, 1.0, 0.0, 1.0)

  /** A root and a lone cell three levels below it. */
  function OrphanCells(): Cells {
    map[Format([]) := CellSpec(Format([]), Some(ARENA), 0, ""), Format(ORPHAN) := CellSpec(Format(ORPHAN), Some(CORNER), 3, "")]
  }

  /** Without its ancestors, a lone cell three levels down can miss all four
      centres: the probes succeed while points of its box do not resolve to the parent. */
  lemma OrphanEscapesProbes()
    ensures WellPlaced(ARENA, OrphanCells()) && Format([]) in OrphanCells()
    ensures Clear(OrphanCells(), []) && !Leaf(OrphanCells(), [])
    ensures ProbesHit(OrphanCells(), Format([]), ARENA)
    ensures Interior(ARENA, 0.5, 0.5) && !Wins(OrphanCells(), Format([]), 0.5, 0.5)
  {
    hide Format, PathOf, TrimSpace, BoxAt, ProbesHit, CanPass;
    OrphanBox(ARENA, ORPHAN);
    RootBox(ARENA);
    ParseAfterFormat([]);
    ParseAfterFormat(ORPHAN);
    assert Format([]) != Format(ORPHAN);
    var cells := OrphanCells();
    assert cells.Keys == {Format([]), Format(ORPHAN)};
    assert [] < PathOf(Format(ORPHAN)).value;
    assert ORPHAN[0..] == ORPHAN && ORPHAN[2] != 3 - ORPHAN[1];
    ProbesAreExact(cells, ARENA, []);
    assert Covers(cells[Format(ORPHAN)], 0.5, 0.5);
  }

  lemma RootBox(root: Bounds)
    ensures BoxAt(root, []) == root
  {
  }

  lemma OrphanBox(root: Bounds, deep: Path)
    requires root == Bounds(0.0, 8.0, 0.0, 8.0) && deep == [0, 0, 0]
    ensures BoxAt(root, deep) == Bounds(0.0, 1.0, 0.0, 1.0)
  {
    var b1, b2 := Bounds(0.0, 4.0, 0.0, 4.0), Bounds(0.0, 2.0, 0.0, 2.0);
    assert deep[1..] == [0, 0] && [0, 0][1..] == [0] && [0][1..] == [];
    assert BoxAt(b2, [0]) == BoxAt(SplitFour(b2)[0], []);
    assert BoxAt(b1, [0, 0]) == BoxAt(b2, [0]);
  }
}
