/** Splitting a cell in four, and how the id order mirrors it at every depth. */
module Geometry {
  import opened CellPath

  datatype Bounds = Bounds(xMin: real, xMax: real, zMin: real, zMax: real)

  function MidX(b: Bounds): real { (b.xMin + b.xMax) / 2.0 }

  function MidZ(b: Bounds): real { (b.zMin + b.zMax) / 2.0 }

  /** The four children in quadrant order. */
  function SplitFour(b: Bounds): (quads: seq<Bounds>)
    ensures |quads| == 4
  {
    [Bounds(b.xMin, MidX(b), b.zMin, MidZ(b)),
     Bounds(MidX(b), b.xMax, b.zMin, MidZ(b)),
     Bounds(b.xMin, MidX(b), MidZ(b), b.zMax),
     Bounds(MidX(b), b.xMax, MidZ(b), b.zMax)]
  }

  function Quadrant(x: real, z: real, b: Bounds): Quad {
    (if z >= MidZ(b) then 2 else 0) + (if x >= MidX(b) then 1 else 0)
  }

  /** Bounds are closed: neighbours share their edges. */
  predicate Contains(b: Bounds, x: real, z: real) {
    b.xMin <= x <= b.xMax && b.zMin <= z <= b.zMax
  }

  predicate Interior(b: Bounds, x: real, z: real) {
    b.xMin < x < b.xMax && b.zMin < z < b.zMax
  }

  predicate Proper(b: Bounds) {
    b.xMin < b.xMax && b.zMin < b.zMax
  }

  /** `a` lies within `b`. */
  predicate Within(a: Bounds, b: Bounds) {
    b.xMin <= a.xMin && a.xMax <= b.xMax && b.zMin <= a.zMin && a.zMax <= b.zMax
  }

  /** The box of a path: split once per digit. */
  function BoxAt(root: Bounds, path: Path): Bounds
    decreases |path|
  {
    if path == [] then root else BoxAt(SplitFour(root)[path[0]], path[1..])
  }

  // ---------------------------------------------------------------- one split

  lemma ChildShape(b: Bounds, q: Quad)
    requires Proper(b)
    ensures var c := SplitFour(b)[q];
            Proper(c) && Within(c, b) && c.xMax - c.xMin == (b.xMax - b.xMin) / 2.0 && c.zMax - c.zMin == (b.zMax - b.zMin) / 2.0
  {
  }

  /** Odd quadrants are the right half, the last two the upper half: the
      quadrant's bits say where in the box it lies, and `Quadrant` reads them off the point. */
  lemma QuadrantLayout(b: Bounds, q: Quad)
    ensures var c := SplitFour(b)[q]; var midX, midZ := (b.xMin + b.xMax) / 2.0, (b.zMin + b.zMax) / 2.0;
            (if q in {1, 3} then c.xMin == midX && c.xMax == b.xMax else c.xMin == b.xMin && c.xMax == midX) &&
            (if q in {2, 3} then c.zMin == midZ && c.zMax == b.zMax else c.zMin == b.zMin && c.zMax == midZ)
    ensures forall x, z :: (Quadrant(x, z, b) in {1, 3} <==> x >= (b.xMin + b.xMax) / 2.0) && (Quadrant(x, z, b) in {2, 3} <==> z >= (b.zMin + b.zMax) / 2.0)
  {
  }

  /** The closed box of one child misses the interior of every other. */
  lemma ChildrenApart(b: Bounds, q: Quad, r: Quad, x: real, z: real)
    requires Proper(b) && q != r && Contains(SplitFour(b)[q], x, z)
    ensures !Interior(SplitFour(b)[r], x, z)
  {
  }

  /** `Quadrant` names a child that contains the point. */
  lemma QuadrantContains(b: Bounds, x: real, z: real)
    requires Contains(b, x, z)
    ensures Contains(SplitFour(b)[Quadrant(x, z, b)], x, z)
  {
  }

  // ---------------------------------------------------------------- any depth

  lemma {:induction false} BoxOfConcat(root: Bounds, a: Path, b: Path)
    ensures BoxAt(root, a + b) == BoxAt(BoxAt(root, a), b)
    decreases |a|
  {
    if a == [] {
      assert a + b == b;
    } else {
      assert (a + b)[1..] == a[1..] + b;
      BoxOfConcat(SplitFour(root)[a[0]], a[1..], b);
    }
  }

  lemma {:induction false} BoxInRoot(root: Bounds, path: Path)
    requires Proper(root)
    ensures Proper(BoxAt(root, path)) && Within(BoxAt(root, path), root)
    ensures path != [] ==> BoxAt(root, path).xMax - BoxAt(root, path).xMin < root.xMax - root.xMin
    decreases |path|
  {
    if path != [] {
      ChildShape(root, path[0]);
      BoxInRoot(SplitFour(root)[path[0]], path[1..]);
    }
  }

  /** Descendants lie inside, and are strictly smaller. */
  lemma DescendantInside(root: Bounds, a: Path, b: Path)
    requires Proper(root) && a <= b
    ensures Within(BoxAt(root, b), BoxAt(root, a))
    ensures a != b ==> BoxAt(root, b) != BoxAt(root, a)
  {
    assert b == a + b[|a|..];
    BoxOfConcat(root, a, b[|a|..]);
    BoxInRoot(root, a);
    BoxInRoot(BoxAt(root, a), b[|a|..]);
  }

  /** A cell whose closed box meets the interior of another is its ancestor,
      its descendant, or the same cell. */
  lemma {:induction false} MeetingIsRelated(root: Bounds, a: Path, b: Path, x: real, z: real)
    requires Proper(root) && Interior(BoxAt(root, a), x, z) && Contains(BoxAt(root, b), x, z)
    ensures a <= b || b <= a
    decreases |a|
  {
    if a != [] && b != [] {
      BoxInRoot(SplitFour(root)[a[0]], []);
      ChildShape(root, a[0]);
      ChildShape(root, b[0]);
      var ca, cb := SplitFour(root)[a[0]], SplitFour(root)[b[0]];
      BoxInRoot(ca, a[1..]);
      BoxInRoot(cb, b[1..]);
      if a[0] != b[0] {
        ChildrenApart(root, b[0], a[0], x, z);
        assert false;
      }
      MeetingIsRelated(ca, a[1..], b[1..], x, z);
    }
  }

  /** Unrelated cells have disjoint interiors. */
  lemma UnrelatedApart(root: Bounds, a: Path, b: Path, x: real, z: real)
    requires Proper(root) && !(a <= b) && !(b <= a)
    ensures !(Interior(BoxAt(root, a), x, z) && Interior(BoxAt(root, b), x, z))
  {
    if Interior(BoxAt(root, a), x, z) && Interior(BoxAt(root, b), x, z) {
      MeetingIsRelated(root, a, b, x, z);
    }
  }

  /** Prefix order is containment: for accepted ids, "is a descendant" holds
      exactly when the one box lies inside the other and is not the same. */
  lemma DescendantIsInside(root: Bounds, a: Path, b: Path)
    requires Proper(root)
    ensures a < b <==> Within(BoxAt(root, b), BoxAt(root, a)) && BoxAt(root, b) != BoxAt(root, a)
  {
    if a <= b {
      DescendantInside(root, a, b);
      assert |a| == |b| ==> a == b;
    } else if b <= a {
      DescendantInside(root, b, a);
    } else if Within(BoxAt(root, b), BoxAt(root, a)) {
      BoxInRoot(root, b);
      var box := BoxAt(root, b);
      MeetingIsRelated(root, b, a, MidX(box), MidZ(box));
    }
  }

  lemma DescendantIDs(root: Bounds, a: string, b: string)
    requires Proper(root) && PathOf(a).Some? && PathOf(b).Some?
    ensures IsDescendant(a, b) <==>
              var outer, inner := BoxAt(root, PathOf(a).value), BoxAt(root, PathOf(b).value);
              Within(inner, outer) && inner != outer
  {
    DescendantIsInside(root, PathOf(a).value, PathOf(b).value);
  }

  /** Following `Quadrant` down from any point. */
  function Descend(root: Bounds, x: real, z: real, depth: nat): (path: Path)
    ensures |path| == depth
    decreases depth
  {
    if depth == 0 then []
    else
      var q := Quadrant(x, z, root);
      [q] + Descend(SplitFour(root)[q], x, z, depth - 1)
  }

  /** At every depth the point lies in the cell that `Quadrant` leads to, and
      deeper paths continue shallower ones. */
  lemma {:induction false} DescendContains(root: Bounds, x: real, z: real, depth: nat)
    requires Contains(root, x, z)
    ensures Contains(BoxAt(root, Descend(root, x, z, depth)), x, z)
    ensures depth > 0 ==> Descend(root, x, z, depth - 1) <= Descend(root, x, z, depth)
    decreases depth
  {
    if depth > 0 {
      var q := Quadrant(x, z, root);
      QuadrantContains(root, x, z);
      DescendContains(SplitFour(root)[q], x, z, depth - 1);
      assert Descend(root, x, z, depth)[1..] == Descend(SplitFour(root)[q], x, z, depth - 1);
    }
  }

  /** Each quadrant's centre is a corner of all four of that quadrant's children. */
  lemma GrandchildrenMeetAtCentre(b: Bounds, q: Quad)
    requires Proper(b)
    ensures var c := SplitFour(b)[q];
            Interior(b, MidX(c), MidZ(c)) && Interior(c, MidX(c), MidZ(c)) &&
            forall r: Quad :: Contains(SplitFour(c)[r], MidX(c), MidZ(c))
  {
  }
}
