/** After a split: choosing a point inside each child to look up, and judging
    the answers; and choosing the child a migrating player belongs to. */
module SplitProbe {
  import opened Text
  import opened CellPath
  import opened Geometry
  import opened Siblings
  import opened Catalog

  const FRACTIONS: seq<real> := [0.12, 0.28, 0.44, 0.58, 0.72, 0.88]

  type Point = (real, real)

  function Along(from: real, width: real, fraction: real): real {
    from + Scaled(width, fraction)
  }

  function Scaled(width: real, fraction: real): real {
    width * fraction
  }

  /** Candidate `k` of 36: columns outside, rows inside. */
  function Candidate(b: Bounds, k: nat): Point
    requires k < 36
  {
    (Along(b.xMin, b.xMax - b.xMin, FRACTIONS[k / 6]), Along(b.zMin, b.zMax - b.zMin, FRACTIONS[k % 6]))
  }

  /** A deeper cell of another branch covers the point. */
  predicate IsForeign(c: Option<CellSpec>, p: Point, selfID: string, selfLevel: int) {
    c.Some? && c.value.bounds.Some? && c.value.id != selfID && c.value.level > selfLevel &&
    !IsDescendant(selfID, c.value.id) && Contains(c.value.bounds.value, p.0, p.1)
  }

  ghost predicate InForeign(p: Point, selfID: string, selfLevel: int, list: seq<Option<CellSpec>>) {
    exists i :: 0 <= i < |list| && IsForeign(list[i], p, selfID, selfLevel)
  }

  method PointInForeignDeeperCell(p: Point, selfID: string, selfLevel: int, list: seq<Option<CellSpec>>) returns (r: bool)
    ensures r <==> InForeign(p, selfID, selfLevel, list)
  {
    hide IsDescendant, Contains;
    for i := 0 to |list|
      invariant forall j :: 0 <= j < i ==> !IsForeign(list[j], p, selfID, selfLevel)
    {
      var c := list[i];
      if c.Some? && c.value.bounds.Some? && c.value.id != selfID && c.value.level > selfLevel {
        var below := IsDescendantPath(selfID, c.value.id);
        if !below && Contains(c.value.bounds.value, p.0, p.1) {
          return true;
        }
      }
    }
    r := false;
  }

  /** The first candidate from `k` on that no foreign cell covers. */
  ghost function FirstProbe(sp: ChildSpec, list: seq<Option<CellSpec>>, k: nat): Option<Point>
    requires k <= 36
    decreases 36 - k
  {
    if k == 36 then None
    else if InForeign(Candidate(sp.bounds, k), TrimSpace(sp.id), sp.level, list) then FirstProbe(sp, list, k + 1)
    else Some(Candidate(sp.bounds, k))
  }

  method PickResolveProbe(sp: ChildSpec, list: seq<Option<CellSpec>>) returns (r: Option<Point>)
    ensures r == if TrimSpace(sp.id) == "" || !Proper(sp.bounds) then None else FirstProbe(sp, list, 0)
  {
    hide TrimSpace, InForeign, Candidate, Along, Scaled;
    var id := TrimSpace(sp.id);
    var xw, zw := sp.bounds.xMax - sp.bounds.xMin, sp.bounds.zMax - sp.bounds.zMin;
    if xw <= 0.0 || zw <= 0.0 || id == "" {
      return None;
    }
    for i := 0 to 6
      invariant FirstProbe(sp, list, 0) == FirstProbe(sp, list, 6 * i)
    {
      for j := 0 to 6
        invariant FirstProbe(sp, list, 0) == FirstProbe(sp, list, 6 * i + j)
      {
        var p := (Along(sp.bounds.xMin, xw, FRACTIONS[i]), Along(sp.bounds.zMin, zw, FRACTIONS[j]));
        CandidateIsInside(sp.bounds, i, j);
        var foreign := PointInForeignDeeperCell(p, id, sp.level, list);
        if Contains(sp.bounds, p.0, p.1) && !foreign {
          return Some(p);
        }
      }
    }
    r := None;
  }

  lemma CandidateIsInside(b: Bounds, i: nat, j: nat)
    requires Proper(b) && i < 6 && j < 6
    ensures Candidate(b, 6 * i + j) == (Along(b.xMin, b.xMax - b.xMin, FRACTIONS[i]), Along(b.zMin, b.zMax - b.zMin, FRACTIONS[j]))
    ensures var p := Candidate(b, 6 * i + j); Interior(b, p.0, p.1) && Contains(b, p.0, p.1)
  {
    hide Along;
    Fraction(b.xMin, b.xMax - b.xMin, FRACTIONS[i]);
    Fraction(b.zMin, b.zMax - b.zMin, FRACTIONS[j]);
  }

  /** The candidates lie on a grid inside the box, column by column from the left, each from the bottom up. */
  lemma CandidatesAscend(b: Bounds, i: nat, j: nat, k: nat, l: nat)
    requires Proper(b) && i < 6 && j < 6 && k < 6 && l < 6
    ensures var p, q := Candidate(b, 6 * i + j), Candidate(b, 6 * k + l);
            (p.0 < q.0 <==> i < k) && (p.1 < q.1 <==> j < l)
  {
    hide Along;
    CandidateIsInside(b, i, j);
    CandidateIsInside(b, k, l);
    FurtherAlong(b.xMin, b.xMax - b.xMin, i, k);
    FurtherAlong(b.zMin, b.zMax - b.zMin, j, l);
  }

  lemma FurtherAlong(lo: real, w: real, i: nat, k: nat)
    requires 0.0 < w && i < 6 && k < 6
    ensures Along(lo, w, FRACTIONS[i]) < Along(lo, w, FRACTIONS[k]) <==> i < k
  {
    hide Scaled;
    ScaledOrder(w, FRACTIONS[i], FRACTIONS[k]);
    assert FRACTIONS[i] < FRACTIONS[k] <==> i < k;
  }

  lemma ScaledOrder(w: real, f: real, g: real)
    requires 0.0 < w
    ensures Scaled(w, f) < Scaled(w, g) <==> f < g
  {
    hide Scaled;
    if f < g {
      Positive(w, g - f);
      Differ(w, g, f);
    } else if g < f {
      Positive(w, f - g);
      Differ(w, f, g);
    }
  }

  lemma Differ(w: real, a: real, b: real)
    ensures Scaled(w, a - b) == Scaled(w, a) - Scaled(w, b)
  {
  }

  lemma Fraction(lo: real, w: real, f: real)
    requires 0.0 < w && 0.0 < f && f < 1.0
    ensures lo < Along(lo, w, f) && Along(lo, w, f) < lo + w
  {
    hide Scaled;
    Positive(w, f);
    Shrinks(w, f);
  }

  lemma Positive(a: real, b: real)
    requires 0.0 < a && 0.0 < b
    ensures 0.0 < Scaled(a, b)
  {
  }

  lemma Shrinks(w: real, f: real)
    requires 0.0 < w && f < 1.0
    ensures Scaled(w, f) < w
  {
    Positive(w, 1.0 - f);
    assert w * (1.0 - f) == w - w * f;
  }

  // ---------------------------------------------------------------- judging the answers

  datatype Reason = NoProbePoint(id: string) | NoMatch(id: string) | WantGot(id: string, got: string)

  /** The winner is the child itself or a cell below it. */
  predicate Acceptable(id: string, level: int, got: string) {
    got == id || (PathOf(got).Some? && |PathOf(got).value| > level && IsDescendant(id, got))
  }

  method ProbeReason(m: Memory, sp: ChildSpec, list: seq<Option<CellSpec>>) returns (r: Option<Reason>)
    requires m.Valid()
    ensures r.Some? ==> r.value.id == TrimSpace(sp.id) && r.value.id != ""
    ensures TrimSpace(sp.id) == "" ==> r.None?
    ensures TrimSpace(sp.id) != "" && (!Proper(sp.bounds) || FirstProbe(sp, list, 0).None?) ==> r.Some? && r.value.NoProbePoint?
    ensures TrimSpace(sp.id) != "" && Proper(sp.bounds) && FirstProbe(sp, list, 0).Some? ==>
              JudgedByWinner(m.cells, sp, FirstProbe(sp, list, 0).value, r)
  {
    hide TrimSpace, PathOf, FirstProbe, Wins, Covered, Sound, IsDescendant;
    var id := TrimSpace(sp.id);
    if id == "" {
      return None;
    }
    var probe := PickResolveProbe(sp, list);
    if probe.None? {
      return Some(NoProbePoint(id));
    }
    var got := m.ResolveMostSpecific(probe.value.0, probe.value.1);
    if got.None? {
      return Some(NoMatch(id));
    }
    if got.value.id == id {
      return None;
    }
    var path := ParseCellPathID(got.value.id);
    if path.Ok? && |path.value| > sp.level {
      var below := IsDescendantPath(id, got.value.id);
      if below {
        return None;
      }
    }
    r := Some(WantGot(id, got.value.id));
  }

  /** The verdict follows from one of the winners at the probe. */
  predicate JudgedByWinner(cells: Cells, sp: ChildSpec, p: Point, r: Option<Reason>) {
    if !Covered(cells, p.0, p.1) then r == Some(NoMatch(TrimSpace(sp.id)))
    else exists got <- cells :: Wins(cells, got, p.0, p.1) &&
           r == (if Acceptable(TrimSpace(sp.id), sp.level, got) then None else Some(WantGot(TrimSpace(sp.id), got)))
  }

  // ---------------------------------------------------------------- in a catalogue whose cells sit at their paths

  /** The planned child sits at its own path too. */
  predicate PlacedChild(root: Bounds, sp: ChildSpec) {
    PathOf(sp.id).Some? && sp.bounds == BoxAt(root, PathOf(sp.id).value) && sp.level == |PathOf(sp.id).value|
  }

  /** The child itself, or a cell below it that covers the probe, is registered. */
  ghost predicate Answered(root: Bounds, cells: Cells, sp: ChildSpec) {
    PathOf(sp.id).Some? && var p := Candidate(sp.bounds, 0);
    exists id <- cells :: PathOf(id).Some? && PathOf(sp.id).value <= PathOf(id).value && Covers(cells[id], p.0, p.1)
  }

  /** No foreign cell can cover an interior point, so the very first candidate is taken. */
  lemma FirstCandidateIsFree(root: Bounds, cells: Cells, list: seq<Option<CellSpec>>, sp: ChildSpec)
    requires WellPlaced(root, cells) && IsListing(list, cells) && PlacedChild(root, sp)
    ensures Proper(sp.bounds) && FirstProbe(sp, list, 0) == Some(Candidate(sp.bounds, 0))
    ensures var p := Candidate(sp.bounds, 0); Interior(sp.bounds, p.0, p.1)
    ensures TrimSpace(sp.id) == Format(PathOf(sp.id).value) && TrimSpace(sp.id) != ""
  {
    hide Candidate, Format, PathOf, BoxAt, TrimSpace, Contains, Interior;
    var path, p := PathOf(sp.id).value, Candidate(sp.bounds, 0);
    FormatAfterParse(sp.id);
    FormatIsTrimmed(path);
    ParseAfterFormat(path);
    BoxInRoot(root, path);
    CandidateIsInside(sp.bounds, 0, 0);
    forall i | 0 <= i < |list| ensures !IsForeign(list[i], p, TrimSpace(sp.id), sp.level) {
      var c := list[i].value;
      if Covers(c, p.0, p.1) && c.level > sp.level {
        CoveringIsRelated(root, cells, path, c.id, p.0, p.1);
        assert path < PathOf(c.id).value;
      }
    }
  }

  /** The verdict on one child is exact. */
  lemma VerdictIsExact(root: Bounds, cells: Cells, list: seq<Option<CellSpec>>, sp: ChildSpec, r: Option<Reason>)
    requires WellPlaced(root, cells) && IsListing(list, cells) && PlacedChild(root, sp)
    requires JudgedByWinner(cells, sp, Candidate(sp.bounds, 0), r)
    ensures r.None? <==> Answered(root, cells, sp)
  {
    FirstCandidateIsFree(root, cells, list, sp);
    hide Candidate, Format, PathOf, BoxAt, TrimSpace, Contains, Interior, FirstProbe, IsListing;
    var path, p := PathOf(sp.id).value, Candidate(sp.bounds, 0);
    if Covered(cells, p.0, p.1) {
      var got :| got in cells && Wins(cells, got, p.0, p.1) &&
                 r == (if Acceptable(TrimSpace(sp.id), sp.level, got) then None else Some(WantGot(TrimSpace(sp.id), got)));
      CoveringIsRelated(root, cells, path, got, p.0, p.1);
      AcceptableIsBelow(root, cells, sp, got);
      if id :| id in cells && PathOf(id).Some? && path <= PathOf(id).value && Covers(cells[id], p.0, p.1) {
        assert cells[id].level <= cells[got].level;
        assert |path| <= |PathOf(got).value|;
        assert path <= PathOf(got).value;
      }
    }
  }

  lemma AcceptableIsBelow(root: Bounds, cells: Cells, sp: ChildSpec, got: string)
    requires WellPlaced(root, cells) && got in cells && PlacedChild(root, sp)
    requires TrimSpace(sp.id) == Format(PathOf(sp.id).value)
    ensures Acceptable(TrimSpace(sp.id), sp.level, got) <==> PathOf(sp.id).value <= PathOf(got).value
  {
    hide Format, PathOf, BoxAt, TrimSpace;
    ParseAfterFormat(PathOf(sp.id).value);
    var path, below := PathOf(sp.id).value, PathOf(got).value;
    assert got == Format(below);
    assert path <= below ==> path == below || path < below;
  }

  /** The preflight over all children: an id is reported exactly when one of the
      children so named is not answered. */
  method ResolveChildProbeReasons(m: Memory, specs: seq<ChildSpec>) returns (reasons: seq<Reason>)
    requires m.Valid()
    ensures |reasons| <= |specs|
    ensures forall root: Bounds | WellPlaced(root, m.cells) && (forall sp <- specs :: PlacedChild(root, sp)) ::
              forall id :: Reported(reasons, id) <==> Unanswered(root, m.cells, specs, id)
  {
    hide *;
    var list := m.List();
    reasons := [];
    ghost var verdicts: seq<Option<Reason>> := [];
    for k := 0 to |specs|
      invariant |verdicts| == k && |reasons| <= k
      invariant forall i :: 0 <= i < k ==> verdicts[i].Some? ==> verdicts[i].value in reasons && verdicts[i].value.id == TrimSpace(specs[i].id)
      invariant forall r <- reasons :: Some(r) in verdicts
      invariant forall root: Bounds, i :: 0 <= i < k && WellPlaced(root, m.cells) && PlacedChild(root, specs[i]) ==>
                  (verdicts[i].None? <==> Answered(root, m.cells, specs[i]))
    {
      var r := ProbeReason(m, specs[k], list);
      forall root: Bounds | WellPlaced(root, m.cells) && PlacedChild(root, specs[k])
        ensures r.None? <==> Answered(root, m.cells, specs[k])
      {
        FirstCandidateIsFree(root, m.cells, list, specs[k]);
        VerdictIsExact(root, m.cells, list, specs[k], r);
      }
      verdicts := verdicts + [r];
      if r.Some? {
        reasons := reasons + [r.value];
      }
    }
    forall root: Bounds | WellPlaced(root, m.cells) && (forall sp <- specs :: PlacedChild(root, sp))
      ensures forall id :: Reported(reasons, id) <==> Unanswered(root, m.cells, specs, id)
    {
      forall id ensures Reported(reasons, id) <==> Unanswered(root, m.cells, specs, id) {
        ReportsMatch(root, m.cells, specs, verdicts, reasons, id);
      }
    }
  }

  predicate Reported(reasons: seq<Reason>, id: string) {
    exists r <- reasons :: r.id == id
  }

  ghost predicate Unanswered(root: Bounds, cells: Cells, specs: seq<ChildSpec>, id: string) {
    exists sp <- specs :: TrimSpace(sp.id) == id && !Answered(root, cells, sp)
  }

  lemma ReportsMatch(root: Bounds, cells: Cells, specs: seq<ChildSpec>, verdicts: seq<Option<Reason>>,
                     reasons: seq<Reason>, id: string)
    requires |verdicts| == |specs|
    requires forall i :: 0 <= i < |specs| ==> verdicts[i].Some? ==> verdicts[i].value in reasons && verdicts[i].value.id == TrimSpace(specs[i].id)
    requires forall r <- reasons :: Some(r) in verdicts
    requires forall i :: 0 <= i < |specs| ==> (verdicts[i].None? <==> Answered(root, cells, specs[i]))
    ensures Reported(reasons, id) <==> Unanswered(root, cells, specs, id)
  {
    hide TrimSpace, Answered;
    if r :| r in reasons && r.id == id {
      var i :| 0 <= i < |specs| && verdicts[i] == Some(r);
      assert specs[i] in specs;
    }
    if sp :| sp in specs && TrimSpace(sp.id) == id && !Answered(root, cells, sp) {
      var i :| 0 <= i < |specs| && specs[i] == sp;
      assert verdicts[i].value in reasons;
    }
  }

  // ---------------------------------------------------------------- the child a player goes to

  method ResolveTargetChildForPlayer(m: Memory, x: real, z: real, ready: set<string>) returns (r: Option<string>)
    requires m.Valid()
    ensures r.Some? ==> r.value in ready && exists id <- m.cells :: Wins(m.cells, id, x, z) && r.value == TrimSpace(id)
    ensures r.None? ==> !Covered(m.cells, x, z) || exists id <- m.cells :: Wins(m.cells, id, x, z) && TrimSpace(id) !in ready
  {
    hide TrimSpace, Wins, Covered, Sound;
    var cell := m.ResolveMostSpecific(x, z);
    if cell.None? {
      return None;
    }
    var id := TrimSpace(cell.value.id);
    if id !in ready {
      return None;
    }
    r := Some(id);
  }

  /** After the split of a leaf every player strictly inside it is sent to a
      child whose closed box holds them: whichever winner the look-up returns
      is one of the ready children. */
  lemma InsidePlayersFindTheirChild(root: Bounds, cells: Cells, path: Path, kids: seq<CellSpec>,
                                    ready: set<string>, x: real, z: real)
    requires Sound(cells) && WellPlaced(root, cells) && Format(path) in cells && Leaf(cells, path)
    requires AreChildren(kids, path, BoxAt(root, path), |path|) && Interior(BoxAt(root, path), x, z)
    requires forall q: Quad :: kids[q].id in ready
    ensures var after := RegisterAll(cells, kids);
            Covered(after, x, z) && forall id <- after :: Wins(after, id, x, z) ==>
              TrimSpace(id) == id && id in ready && Covers(after[id], x, z)
  {
    hide *;
    var after, b := RegisterAll(cells, kids), BoxAt(root, path);
    PlacedHasParent(root, cells, path);
    InteriorIsContained(b, x, z);
    SplitDeepens(cells, Format(path), path, b, |path|, kids, x, z);
    SplitEntries(cells, Format(path), path, b, |path|, kids);
    ChildrenWin(root, cells, path, kids, x, z);
    KidIDs(kids, path, b, |path|);
    SomeKidCovers(after, kids[Quadrant(x, z, b)], x, z);
    forall id <- after | Wins(after, id, x, z)
      ensures TrimSpace(id) == id && id in ready && Covers(after[id], x, z)
    {
      WinnerIsListed(after, id, x, z);
      var q: Quad :| id == kids[q].id;
    }
  }

  lemma KidIDs(kids: seq<CellSpec>, path: Path, b: Bounds, level: int)
    requires AreChildren(kids, path, b, level)
    ensures forall q: Quad :: TrimSpace(kids[q].id) == kids[q].id && kids[q].bounds == Some(SplitFour(b)[q])
  {
    hide Format, TrimSpace, SplitFour;
    forall q: Quad ensures TrimSpace(kids[q].id) == kids[q].id {
      FormatIsTrimmed(path + [q]);
    }
  }

  lemma SomeKidCovers(after: Cells, kid: CellSpec, x: real, z: real)
    requires kid.id in after && after[kid.id] == kid && Covers(kid, x, z)
    ensures Covered(after, x, z)
  {
  }

  lemma WinnerIsListed(after: Cells, id: string, x: real, z: real)
    requires Wins(after, id, x, z)
    ensures id in Winners(after, x, z) && Covers(after[id], x, z)
  {
  }
}
