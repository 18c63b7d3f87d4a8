/** Planning the four children of a cell, and recognising four cells as the
    children to merge. */
module Siblings {
  import opened Text
  import opened CellPath
  import opened Geometry

  datatype CellSpec = CellSpec(id: string, bounds: Option<Bounds>, level: int, endpoint: string)

  /** What a split plans for one quadrant. */
  datatype ChildSpec = ChildSpec(id: string, bounds: Bounds, level: int)

  // ---------------------------------------------------------------- planning

  /** The plan of a split: none without bounds, an error if the parent id does not parse. */
  method ChildSpecsForSplit(parentID: string, parent: Option<Bounds>, parentLevel: int)
    returns (r: Result<seq<ChildSpec>, ChildError>)
    ensures parent.None? ==> r == Ok([])
    ensures parent.Some? ==> (r.Ok? <==> PathOf(parentID).Some?)
    ensures parent.Some? && r.Ok? ==> IsPlan(r.value, PathOf(parentID).value, parent.value, parentLevel)
  {
    hide SplitFour, Format, PathOf;
    if parent.None? {
      return Ok([]);
    }
    var quads := SplitFour(parent.value);
    var out: seq<ChildSpec> := [];
    for i := 0 to 4
      invariant |out| == i && (i > 0 ==> PathOf(parentID).Some?)
      invariant forall q | 0 <= q < i ::
                  out[q] == ChildSpec(Format(PathOf(parentID).value + [q]), quads[q], parentLevel + 1)
    {
      var id := ChildIDForQuadrant(parentID, i);
      if id.Err? {
        return Err(id.error);
      }
      out := out + [ChildSpec(id.value, quads[i], parentLevel + 1)];
    }
    r := Ok(out);
  }

  /** Four children in quadrant order: ids one digit longer, bounds from the split, one level down. */
  predicate IsPlan(specs: seq<ChildSpec>, path: Path, parent: Bounds, parentLevel: int) {
    |specs| == 4 && forall q: Quad ::
      specs[q] == ChildSpec(Format(path + [q]), SplitFour(parent)[q], parentLevel + 1)
  }

  // ---------------------------------------------------------------- finding the children in a catalogue

  /** The entry is a cell of the wanted level with exactly these bounds. */
  predicate Fits(entry: Option<CellSpec>, level: int, b: Bounds) {
    entry.Some? && entry.value.bounds == Some(b) && entry.value.level == level
  }

  function IDOf(c: CellSpec): string {
    TrimSpace(c.id)
  }

  /** Outer white space in an entry's id makes no difference. */
  lemma PaddedIsSame(c: CellSpec, before: string, id: string, after: string)
    requires Trimmed(id) && id != "" && (forall x <- before :: IsSpace(x)) && (forall x <- after :: IsSpace(x))
    ensures IDOf(c.(id := before + id + after)) == id
  {
    PaddingGoes(before, id, after);
    hide TrimSpace, Trimmed, IsSpace;
  }

  /** Entries that fit, and all under one id. */
  ghost predicate Unambiguous(catalog: seq<Option<CellSpec>>, level: int, b: Bounds) {
    (exists i :: 0 <= i < |catalog| && Fits(catalog[i], level, b)) &&
    (forall i, j | 0 <= i < |catalog| && 0 <= j < |catalog| && Fits(catalog[i], level, b) && Fits(catalog[j], level, b) ::
       IDOf(catalog[i].value) == IDOf(catalog[j].value))
  }

  /** The catalogue holds four distinct, named children of these bounds. */
  ghost predicate Mergeable(parent: Bounds, level: int, catalog: seq<Option<CellSpec>>) {
    (forall q: Quad :: Unambiguous(catalog, level, SplitFour(parent)[q])) &&
    (forall q: Quad, i | 0 <= i < |catalog| && Fits(catalog[i], level, SplitFour(parent)[q]) :: IDOf(catalog[i].value) != "") &&
    (forall q: Quad, r: Quad, i, j | q != r && 0 <= i < |catalog| && 0 <= j < |catalog| &&
       Fits(catalog[i], level, SplitFour(parent)[q]) && Fits(catalog[j], level, SplitFour(parent)[r]) ::
       IDOf(catalog[i].value) != IDOf(catalog[j].value))
  }

  datatype MatchError = NoBounds | Ambiguous(q: Quad) | Missing(q: Quad) | EmptyID(q: Quad) | DuplicateID(q: Quad)

  /** Scans the catalogue for one quadrant; the last fitting entry is the match. */
  method FindQuadrant(catalog: seq<Option<CellSpec>>, level: int, b: Bounds, q: Quad) returns (r: Result<CellSpec, MatchError>)
    ensures r.Ok? <==> Unambiguous(catalog, level, b)
    ensures r.Ok? ==> Some(r.value) in catalog && Fits(Some(r.value), level, b)
    ensures r.Err? ==> r.error == Missing(q) || r.error == Ambiguous(q)
    ensures r == Err(Missing(q)) <==> forall i :: 0 <= i < |catalog| ==> !Fits(catalog[i], level, b)
  {
    hide IDOf;
    var found: Option<CellSpec> := None;
    for i := 0 to |catalog|
      invariant found.None? <==> forall j :: 0 <= j < i ==> !Fits(catalog[j], level, b)
      invariant found.Some? ==> Fits(found, level, b) && exists j :: 0 <= j < i && catalog[j] == found
      invariant found.Some? ==> forall j :: 0 <= j < i && Fits(catalog[j], level, b) ==> IDOf(catalog[j].value) == IDOf(found.value)
    {
      var c := catalog[i];
      if Fits(c, level, b) {
        if found.Some? && IDOf(found.value) != IDOf(c.value) {
          var k :| 0 <= k < i && catalog[k] == found;
          return Err(Ambiguous(q));
        }
        found := c;
      }
    }
    if found.None? {
      return Err(Missing(q));
    }
    r := Ok(found.value);
  }

  /** The four children in quadrant order, exactly when the catalogue is unambiguous about them. */
  method CatalogMergeChildren(parent: Option<CellSpec>, catalog: seq<Option<CellSpec>>)
    returns (r: Result<seq<CellSpec>, MatchError>)
    ensures r.Ok? <==> parent.Some? && parent.value.bounds.Some? &&
                       Mergeable(parent.value.bounds.value, parent.value.level + 1, catalog)
    ensures r.Ok? ==> AreMatches(r.value, parent.value.bounds.value, parent.value.level + 1, catalog)
  {
    hide IDOf, SplitFour, Unambiguous, Fits, DistinctIDs;
    if parent.None? || parent.value.bounds.None? {
      return Err(NoBounds);
    }
    var level := parent.value.level + 1;
    var quads := SplitFour(parent.value.bounds.value);
    var out: seq<CellSpec> := [];
    for q := 0 to 4
      invariant |out| == q
      invariant forall k :: 0 <= k < q ==> Unambiguous(catalog, level, quads[k])
      invariant forall k :: 0 <= k < q ==> Some(out[k]) in catalog && Fits(Some(out[k]), level, quads[k])
    {
      var m := FindQuadrant(catalog, level, quads[q], q);
      if m.Err? {
        return Err(m.error);
      }
      out := out + [m.value];
    }
    assert AreMatches(out, parent.value.bounds.value, level, catalog);
    r := CheckIDs(out);
    if r.Ok? {
      DistinctMatchesMerge(out, parent.value.bounds.value, level, catalog);
    } else {
      MergeableMatchesDistinct(out, parent.value.bounds.value, level, catalog);
    }
  }

  ghost predicate AreMatches(out: seq<CellSpec>, parent: Bounds, level: int, catalog: seq<Option<CellSpec>>) {
    |out| == 4 && forall q: Quad ::
      Some(out[q]) in catalog && Fits(Some(out[q]), level, SplitFour(parent)[q]) &&
      Unambiguous(catalog, level, SplitFour(parent)[q])
  }

  predicate DistinctIDs(cells: seq<CellSpec>) {
    (forall i :: 0 <= i < |cells| ==> IDOf(cells[i]) != "") &&
    (forall i, j :: 0 <= i < j < |cells| ==> IDOf(cells[i]) != IDOf(cells[j]))
  }

  method CheckIDs(out: seq<CellSpec>) returns (r: Result<seq<CellSpec>, MatchError>)
    requires |out| == 4
    ensures r.Ok? <==> DistinctIDs(out)
    ensures r.Ok? ==> r.value == out
  {
    hide IDOf;
    var seen: set<string> := {};
    for i := 0 to 4
      invariant forall k :: 0 <= k < i ==> IDOf(out[k]) != "" && IDOf(out[k]) in seen
      invariant forall id <- seen :: exists k :: 0 <= k < i && IDOf(out[k]) == id
      invariant forall k, l :: 0 <= k < l < i ==> IDOf(out[k]) != IDOf(out[l])
    {
      var id := IDOf(out[i]);
      if id == "" {
        return Err(EmptyID(i));
      }
      if id in seen {
        return Err(DuplicateID(i));
      }
      seen := seen + {id};
    }
    r := Ok(out);
  }

  lemma DistinctMatchesMerge(out: seq<CellSpec>, parent: Bounds, level: int, catalog: seq<Option<CellSpec>>)
    requires AreMatches(out, parent, level, catalog) && DistinctIDs(out)
    ensures Mergeable(parent, level, catalog)
  {
    hide IDOf, SplitFour;
    forall q: Quad, i | 0 <= i < |catalog| && Fits(catalog[i], level, SplitFour(parent)[q])
      ensures IDOf(catalog[i].value) == IDOf(out[q])
    {
      var j :| 0 <= j < |catalog| && catalog[j] == Some(out[q]);
      assert Unambiguous(catalog, level, SplitFour(parent)[q]);
    }
  }

  lemma MergeableMatchesDistinct(out: seq<CellSpec>, parent: Bounds, level: int, catalog: seq<Option<CellSpec>>)
    requires AreMatches(out, parent, level, catalog)
    ensures Mergeable(parent, level, catalog) ==> DistinctIDs(out)
  {
    hide IDOf, SplitFour;
    forall q: Quad ensures exists i :: 0 <= i < |catalog| && catalog[i] == Some(out[q]) {
      assert Some(out[q]) in catalog;
    }
  }

  // ---------------------------------------------------------------- validating four children

  /** What a list of children must be: four named, distinct cells one level down
      whose bounds are those of the split, in any order. */
  ghost predicate ValidMerge(parent: Option<Bounds>, parentLevel: int, children: seq<Option<CellSpec>>) {
    parent.Some? && |children| == 4 &&
    (forall i :: 0 <= i < 4 ==> IsChild(children[i], parentLevel)) &&
    (forall i, j :: 0 <= i < j < 4 ==> NamedApart(children[i], children[j])) &&
    SameBoxes(children, parent.value)
  }

  predicate NamedApart(a: Option<CellSpec>, b: Option<CellSpec>) {
    a.Some? && b.Some? && IDOf(a.value) != IDOf(b.value)
  }

  ghost predicate SameBoxes(children: seq<Option<CellSpec>>, parent: Bounds) {
    (forall i :: 0 <= i < |children| ==> children[i].Some? && children[i].value.bounds.Some?) &&
    multiset(BoundsOf(children)) == multiset(SplitFour(parent))
  }

  /** A named cell with bounds, one level below the parent. */
  predicate IsChild(c: Option<CellSpec>, parentLevel: int) {
    c.Some? && IDOf(c.value) != "" && c.value.level == parentLevel + 1 && c.value.bounds.Some?
  }

  function BoundsOf(children: seq<Option<CellSpec>>): (bs: seq<Bounds>)
    requires forall i :: 0 <= i < |children| ==> children[i].Some? && children[i].value.bounds.Some?
    ensures |bs| == |children|
  {
    seq(|children|, i requires 0 <= i < |children| => children[i].value.bounds.value)
  }

  /** The quadrants ticked off so far. */
  ghost function Ticked(quads: seq<Bounds>, used: seq<bool>): multiset<Bounds>
    requires |quads| == |used|
  {
    if used == [] then multiset{}
    else Ticked(quads[1..], used[1..]) + (if used[0] then multiset{quads[0]} else multiset{})
  }

  lemma {:induction false} TickOne(quads: seq<Bounds>, used: seq<bool>, m: nat)
    requires |quads| == |used| && m < |used| && !used[m]
    ensures Ticked(quads, used[m := true]) == Ticked(quads, used) + multiset{quads[m]}
  {
    if m == 0 {
      assert used[0 := true][1..] == used[1..];
    } else {
      assert used[m := true][1..] == used[1..][m - 1 := true];
      TickOne(quads[1..], used[1..], m - 1);
    }
  }

  lemma {:induction false} AllTicked(quads: seq<Bounds>, used: seq<bool>)
    requires |quads| == |used|
    ensures (forall i :: 0 <= i < |used| ==> used[i]) ==> Ticked(quads, used) == multiset(quads)
    ensures |Ticked(quads, used)| == |quads| ==> forall i :: 0 <= i < |used| ==> used[i]
    ensures |Ticked(quads, used)| <= |quads|
  {
    if used != [] {
      AllTicked(quads[1..], used[1..]);
      assert quads == [quads[0]] + quads[1..];
    }
  }

  lemma {:induction false} BoundsUsedUp(quads: seq<Bounds>, used: seq<bool>, b: Bounds)
    requires |quads| == |used| && forall i :: 0 <= i < |used| && quads[i] == b ==> used[i]
    ensures Ticked(quads, used)[b] == multiset(quads)[b]
  {
    if used != [] {
      BoundsUsedUp(quads[1..], used[1..], b);
      assert quads == [quads[0]] + quads[1..];
    }
  }

  /** The first unused quadrant with these bounds, or -1. */
  method FirstUnused(quads: seq<Bounds>, used: seq<bool>, b: Bounds) returns (m: int)
    requires |quads| == |used|
    ensures -1 <= m < |quads|
    ensures m >= 0 ==> !used[m] && quads[m] == b
    ensures m < 0 ==> forall i :: 0 <= i < |quads| && quads[i] == b ==> used[i]
  {
    for i := 0 to |quads|
      invariant forall k :: 0 <= k < i && quads[k] == b ==> used[k]
    {
      if !used[i] && b == quads[i] {
        return i;
      }
    }
    m := -1;
  }

  method AllUsed(used: seq<bool>) returns (r: bool)
    ensures r <==> forall i :: 0 <= i < |used| ==> used[i]
  {
    for i := 0 to |used|
      invariant forall k :: 0 <= k < i ==> used[k]
    {
      if !used[i] {
        return false;
      }
    }
    r := true;
  }

  /** Accepts exactly the valid merges, although it matches greedily: bounds that
      are equal are interchangeable. */
  method ValidateMergeChildren(parent: Option<Bounds>, parentLevel: int, children: seq<Option<CellSpec>>) returns (ok: bool)
    ensures ok <==> ValidMerge(parent, parentLevel, children)
  {
    hide IDOf, SplitFour, Ticked, Accounted, SameBoxes;
    if parent.None? || |children| != 4 {
      return false;
    }
    var quads := SplitFour(parent.value);
    var used := [false, false, false, false];
    NothingAccounted(children, quads, used);
    var seen: set<string> := {};
    for i := 0 to 4
      invariant |used| == 4
      invariant forall k :: 0 <= k < i ==> IsChild(children[k], parentLevel)
      invariant forall k :: 0 <= k < i ==> IDOf(children[k].value) in seen
      invariant forall id <- seen :: exists k :: 0 <= k < i && IDOf(children[k].value) == id
      invariant forall k, l :: 0 <= k < l < i ==> IDOf(children[k].value) != IDOf(children[l].value)
      invariant Accounted(children, i, quads, used)
    {
      var c := children[i];
      if c.None? || IDOf(c.value) == "" || c.value.level != parentLevel + 1 || c.value.bounds.None? {
        return false;
      }
      var id := IDOf(c.value);
      if id in seen {
        return false;
      }
      seen := seen + {id};
      var m := FirstUnused(quads, used, c.value.bounds.value);
      if m < 0 {
        NoneLeft(children, i, quads, used, parent.value);
        return false;
      }
      OneMoreAccounted(children, i, quads, used, m);
      used := used[m := true];
    }
    ok := AllUsed(used);
    AllAccounted(children, parent.value, used);
  }

  /** The first children have bounds, and these are the quadrants ticked off. */
  ghost predicate Accounted(children: seq<Option<CellSpec>>, i: nat, quads: seq<Bounds>, used: seq<bool>) {
    i <= |children| && |quads| == |used| &&
    (forall k :: 0 <= k < i ==> children[k].Some? && children[k].value.bounds.Some?) &&
    multiset(BoundsOf(children[..i])) == Ticked(quads, used)
  }

  lemma NothingAccounted(children: seq<Option<CellSpec>>, quads: seq<Bounds>, used: seq<bool>)
    requires |quads| == |used| && forall i :: 0 <= i < |used| ==> !used[i]
    ensures Accounted(children, 0, quads, used)
  {
    NothingTicked(quads, used);
    hide Ticked;
  }

  lemma OneMoreAccounted(children: seq<Option<CellSpec>>, i: nat, quads: seq<Bounds>, used: seq<bool>, m: nat)
    requires Accounted(children, i, quads, used) && i < |children| && children[i].Some? && children[i].value.bounds.Some?
    requires m < |used| && !used[m] && quads[m] == children[i].value.bounds.value
    ensures Accounted(children, i + 1, quads, used[m := true])
  {
    TickOne(quads, used, m);
    hide Ticked;
    assert BoundsOf(children[..i + 1]) == BoundsOf(children[..i]) + [children[i].value.bounds.value];
  }

  lemma NoneLeft(children: seq<Option<CellSpec>>, i: nat, quads: seq<Bounds>, used: seq<bool>, parent: Bounds)
    requires Accounted(children, i, quads, used) && i < |children| && children[i].Some? && children[i].value.bounds.Some?
    requires quads == SplitFour(parent) && forall k :: 0 <= k < |used| && quads[k] == children[i].value.bounds.value ==> used[k]
    ensures !SameBoxes(children, parent)
  {
    hide SplitFour, Ticked;
    BoundsUsedUp(quads, used, children[i].value.bounds.value);
    Overdrawn(children, i, quads);
  }

  lemma AllAccounted(children: seq<Option<CellSpec>>, parent: Bounds, used: seq<bool>)
    requires |children| == 4 == |used| && Accounted(children, 4, SplitFour(parent), used)
    ensures (forall k :: 0 <= k < 4 ==> used[k]) <==> SameBoxes(children, parent)
  {
    hide SplitFour, Ticked;
    assert children[..4] == children;
    AllTicked(SplitFour(parent), used);
    assert |multiset(BoundsOf(children))| == 4;
  }

  lemma {:induction false} NothingTicked(quads: seq<Bounds>, used: seq<bool>)
    requires |quads| == |used| && forall i :: 0 <= i < |used| ==> !used[i]
    ensures Ticked(quads, used) == multiset{}
  {
    if used != [] {
      NothingTicked(quads[1..], used[1..]);
    }
  }

  /** More children with some bounds than quadrants with them: no order of the children can fit. */
  lemma Overdrawn(children: seq<Option<CellSpec>>, i: nat, quads: seq<Bounds>)
    requires i < |children| && forall k :: 0 <= k <= i ==> children[k].Some? && children[k].value.bounds.Some?
    requires var b := children[i].value.bounds.value;
             multiset(BoundsOf(children[..i]))[b] == multiset(quads)[b]
    ensures (forall k :: 0 <= k < |children| ==> children[k].Some? && children[k].value.bounds.Some?) ==>
              multiset(BoundsOf(children)) != multiset(quads)
  {
    if forall k :: 0 <= k < |children| ==> children[k].Some? && children[k].value.bounds.Some? {
      var b := children[i].value.bounds.value;
      assert BoundsOf(children) == BoundsOf(children[..i]) + [b] + BoundsOf(children[i + 1..]);
      assert multiset(BoundsOf(children))[b] >= multiset(quads)[b] + 1;
    }
  }

  // ---------------------------------------------------------------- the two checks agree

  /** Whatever the catalogue search returns, in any order, passes the validation. */
  lemma FoundChildrenAreValid(parent: CellSpec, catalog: seq<Option<CellSpec>>, out: seq<CellSpec>,
                              children: seq<Option<CellSpec>>)
    requires parent.bounds.Some? && Mergeable(parent.bounds.value, parent.level + 1, catalog)
    requires AreMatches(out, parent.bounds.value, parent.level + 1, catalog)
    requires multiset(children) == multiset([Some(out[0]), Some(out[1]), Some(out[2]), Some(out[3])])
    ensures ValidMerge(parent.bounds, parent.level, children)
  {
    hide IDOf, SplitFour, Mergeable, Unambiguous;
    var b, level := parent.bounds.value, parent.level + 1;
    var inOrder := [Some(out[0]), Some(out[1]), Some(out[2]), Some(out[3])];
    MergeableMatchesDistinct(out, b, level, catalog);
    assert |multiset(children)| == 4;
    assert forall q: Quad :: inOrder[q] == Some(out[q]);
    forall i | 0 <= i < 4 ensures children[i].Some? && children[i].value.bounds.Some? && children[i] in inOrder {
      assert children[i] in multiset(children);
    }
    assert forall q: Quad :: BoundsOf(inOrder)[q] == SplitFour(b)[q];
    assert BoundsOf(inOrder) == SplitFour(b);
    SameBag(children, inOrder);
    DistinctBag(children, inOrder);
  }

  lemma DropOne<T>(a: seq<T>, b: seq<T>, k: nat)
    requires a != [] && k < |b| && b[k] == a[0] && multiset(a) == multiset(b)
    ensures multiset(a[1..]) == multiset(b[..k] + b[k + 1..])
  {
    assert a == [a[0]] + a[1..];
    assert b == b[..k] + [b[k]] + b[k + 1..];
    var rest := b[..k] + b[k + 1..];
    assert multiset(rest) == multiset(b[..k]) + multiset(b[k + 1..]);
    assert multiset(b) == multiset(rest) + multiset{b[k]};
    assert multiset(a) == multiset(a[1..]) + multiset{a[0]};
    assert multiset(a[1..]) == multiset(a) - multiset{a[0]};
    assert multiset(rest) == multiset(b) - multiset{b[k]};
  }

  lemma OneBoundLess(a: seq<Option<CellSpec>>, k: nat)
    requires k < |a| && forall i :: 0 <= i < |a| ==> a[i].Some? && a[i].value.bounds.Some?
    ensures multiset(BoundsOf(a)) == multiset(BoundsOf(a[..k] + a[k + 1..])) + multiset{a[k].value.bounds.value}
  {
    var front, back := BoundsOf(a[..k]), BoundsOf(a[k + 1..]);
    assert BoundsOf(a) == front + [a[k].value.bounds.value] + back;
    assert BoundsOf(a[..k] + a[k + 1..]) == front + back;
    hide BoundsOf;
  }

  /** Rearranging a list rearranges its bounds. */
  lemma {:induction false} SameBag(a: seq<Option<CellSpec>>, b: seq<Option<CellSpec>>)
    requires multiset(a) == multiset(b)
    requires forall i :: 0 <= i < |a| ==> a[i].Some? && a[i].value.bounds.Some?
    requires forall i :: 0 <= i < |b| ==> b[i].Some? && b[i].value.bounds.Some?
    ensures multiset(BoundsOf(a)) == multiset(BoundsOf(b))
    decreases |a|
  {
    if a != [] {
      assert a[0] in multiset(b);
      var k :| 0 <= k < |b| && b[k] == a[0];
      var rest := b[..k] + b[k + 1..];
      DropOne(a, b, k);
      SameBag(a[1..], rest);
      OneBoundLess(a, 0);
      assert a[..0] + a[1..] == a[1..];
      OneBoundLess(b, k);
    } else {
      assert |multiset(b)| == 0;
      assert b == [];
    }
  }

  /** A rearrangement of cells with distinct ids has distinct ids. */
  lemma DistinctBag(children: seq<Option<CellSpec>>, inOrder: seq<Option<CellSpec>>)
    requires multiset(children) == multiset(inOrder)
    requires forall i :: 0 <= i < |inOrder| ==> inOrder[i].Some?
    requires forall i :: 0 <= i < |children| ==> children[i].Some? && children[i] in inOrder
    requires forall i, j :: 0 <= i < j < |inOrder| ==> IDOf(inOrder[i].value) != IDOf(inOrder[j].value)
    ensures forall i, j :: 0 <= i < j < |children| ==> IDOf(children[i].value) != IDOf(children[j].value)
  {
    forall i, j | 0 <= i < j < |children| ensures IDOf(children[i].value) != IDOf(children[j].value) {
      if IDOf(children[i].value) == IDOf(children[j].value) {
        var k :| 0 <= k < |inOrder| && inOrder[k] == children[i];
        var l :| 0 <= l < |inOrder| && inOrder[l] == children[j];
        assert k == l;
        Twice(children, i, j);
        Once(inOrder, k);
      }
    }
  }

  lemma Twice(s: seq<Option<CellSpec>>, i: nat, j: nat)
    requires i < j < |s| && s[i] == s[j]
    ensures multiset(s)[s[i]] >= 2
  {
    assert s == s[..i] + [s[i]] + s[i + 1..j] + [s[j]] + s[j + 1..];
  }

  lemma Once(s: seq<Option<CellSpec>>, k: nat)
    requires k < |s| && forall i :: 0 <= i < |s| && i != k ==> s[i] != s[k]
    ensures multiset(s)[s[k]] == 1
  {
    assert s == s[..k] + [s[k]] + s[k + 1..];
    assert s[k] !in s[..k] && s[k] !in s[k + 1..];
  }

  /** A catalogue that holds a split's four children, and nothing else at that
      level with one of their bounds, yields exactly them in quadrant order. */
  lemma PlannedChildrenAreFound(path: Path, parent: CellSpec, plan: seq<ChildSpec>,
                                catalog: seq<Option<CellSpec>>, out: seq<CellSpec>)
    requires parent.bounds.Some? && IsPlan(plan, path, parent.bounds.value, parent.level)
    requires forall q: Quad :: exists c :: c in catalog && c.Some? && Registers(c.value, plan[q])
    requires forall q: Quad, i | 0 <= i < |catalog| && Fits(catalog[i], parent.level + 1, SplitFour(parent.bounds.value)[q]) ::
               Registers(catalog[i].value, plan[q])
    ensures Mergeable(parent.bounds.value, parent.level + 1, catalog)
    ensures AreMatches(out, parent.bounds.value, parent.level + 1, catalog) ==> forall q: Quad :: Registers(out[q], plan[q])
  {
    hide SplitFour, Format, PathOf, TrimSpace;
    var b, level := parent.bounds.value, parent.level + 1;
    forall q: Quad ensures IDOf(CellSpec(plan[q].id, None, 0, "")) == plan[q].id && plan[q].id != "" {
      FormatIsTrimmed(path + [q]);
    }
    forall q: Quad, r: Quad | q != r ensures plan[q].id != plan[r].id {
      if plan[q].id == plan[r].id {
        ChildIDsDiffer(path, q, path, r);
      }
    }
    forall q: Quad ensures Unambiguous(catalog, level, SplitFour(b)[q]) {
      var c :| c in catalog && c.Some? && Registers(c.value, plan[q]);
      var i :| 0 <= i < |catalog| && catalog[i] == c;
      assert Fits(catalog[i], level, SplitFour(b)[q]);
    }
    if AreMatches(out, b, level, catalog) {
      forall q: Quad ensures Registers(out[q], plan[q]) {
        var i :| 0 <= i < |catalog| && catalog[i] == Some(out[q]);
      }
    }
  }

  /** A registered cell that carries a planned child's id, bounds and level. */
  predicate Registers(c: CellSpec, plan: ChildSpec) {
    c.id == plan.id && c.bounds == Some(plan.bounds) && c.level == plan.level
  }
}
