/** The merge of four sibling cells into their parent: guards, the drain window,
    export and import of the non-player entities, then the player handoffs. */
module Merge {
  import opened Text
  import opened Ecs
  import opened CellState
  import opened CellInvariant
  import opened Persist
  import opened MergePlayers
  import opened Geometry
  import CellPath
  import CellServer
  import Handoff
  import Siblings
  import Catalog

  // ---------------------------------------------------------------- tokens

  lemma {:induction false} DecimalShape(n: nat)
    ensures Decimal(n) != "" && ':' !in Decimal(n) && !IsSpace(Decimal(n)[|Decimal(n)| - 1])
    ensures |Decimal(n)| == 1 <==> n < 10
    ensures Decimal(n)[|Decimal(n)| - 1] as int - '0' as int == n % 10
  {
    if n >= 10 {
      DecimalShape(n / 10);
    }
  }

  lemma {:induction false} DecimalIsInjective(a: nat, b: nat)
    requires Decimal(a) == Decimal(b)
    ensures a == b
  {
    DecimalShape(a);
    DecimalShape(b);
    if a >= 10 {
      assert Decimal(a)[..|Decimal(a)| - 1] == Decimal(a / 10);
      assert Decimal(b)[..|Decimal(b)| - 1] == Decimal(b / 10);
      DecimalIsInjective(a / 10, b / 10);
    }
  }

  lemma AfterLastColon(x: string, d: string, y: string, e: string)
    requires x + ":" + d == y + ":" + e && ':' !in d && ':' !in e
    ensures d == e
  {
    var s := x + ":" + d;
    assert s[|x|] == ':' && s[|y|] == ':';
    assert forall k :: |x| < k < |s| ==> s[k] == d[k - |x| - 1];
    assert forall k :: |y| < k < |s| ==> s[k] == e[k - |y| - 1];
    assert |x| == |y|;
    assert d == s[|x| + 1..] && e == s[|y| + 1..];
  }

  /** Tokens made at different times differ, whatever the ids. */
  lemma TokensDiffer(c: Candidate, d: Candidate, a: nat, b: nat)
    requires a != b
    ensures TokenFor(c, a) != TokenFor(d, b)
  {
    TokenIsRaw(c, a);
    TokenIsRaw(d, b);
    DecimalShape(a);
    DecimalShape(b);
    var x, y := "merge:" + c.child + ":" + c.player, "merge:" + d.child + ":" + d.player;
    hide TokenFor, Decimal;
    if TokenFor(c, a) == TokenFor(d, b) {
      AfterLastColon(x, Decimal(a), y, Decimal(b));
      DecimalIsInjective(a, b);
    }
  }

  /** At one time the token names the candidate, as long as no child's id has a colon in it. */
  lemma TokensTellCandidates(c: Candidate, d: Candidate, now: nat)
    requires ':' !in c.child && ':' !in d.child
    ensures TokenFor(c, now) == TokenFor(d, now) <==> c == d
  {
    TokenIsRaw(c, now);
    TokenIsRaw(d, now);
    var end := ":" + Decimal(now);
    hide TokenFor, Decimal;
    TokenInParts(c.child, c.player, Decimal(now));
    TokenInParts(d.child, d.player, Decimal(now));
    if TokenFor(c, now) == TokenFor(d, now) {
      CutEnds("merge:", c.child + ":" + c.player, d.child + ":" + d.player, end);
      if |c.child| <= |d.child| {
        BeforeFirstColon(c.child, c.player, d.child, d.player);
      } else {
        BeforeFirstColon(d.child, d.player, c.child, c.player);
      }
    }
  }

  lemma TokenInParts(child: string, player: string, number: string)
    ensures "merge:" + child + ":" + player + ":" + number == "merge:" + (child + ":" + player) + (":" + number)
  {
  }

  lemma CutEnds(before: string, a: string, b: string, after: string)
    requires before + a + after == before + b + after
    ensures a == b
  {
    var s, t := before + a + after, before + b + after;
    assert |s| == |t| && |a| == |b|;
    assert a == s[|before|..|before| + |a|] && b == t[|before|..|before| + |b|];
  }

  lemma BeforeFirstColon(x: string, d: string, y: string, e: string)
    requires x + ":" + d == y + ":" + e && |x| <= |y|
    ensures (x == y && d == e) || ':' in y
  {
    var s := x + ":" + d;
    assert s == y + ":" + e;
    assert s[|x|] == ':';
    if |x| < |y| {
      assert y[|x|] == s[|x|];
    } else {
      assert x == s[..|x|] && y == s[..|y|] && d == s[|x| + 1..] && e == s[|y| + 1..];
    }
  }

  /** Nothing to trim: a token starts with a letter and ends with a digit. */
  lemma TokenIsRaw(c: Candidate, now: nat)
    ensures TokenFor(c, now) == "merge:" + c.child + ":" + c.player + ":" + Decimal(now)
  {
    hide Decimal, TrimSpace;
    DecimalShape(now);
    var raw := "merge:" + c.child + ":" + c.player + ":" + Decimal(now);
    assert raw[0] == 'm' && raw[|raw| - 1] == Decimal(now)[|Decimal(now)| - 1];
    TrimIsIdempotent(raw);
  }

  // ---------------------------------------------------------------- request clean-up

  function Unique(ids: seq<string>): seq<string> {
    if ids == [] then []
    else
      var front, id := Unique(ids[..|ids| - 1]), TrimSpace(ids[|ids| - 1]);
      if id == "" || id in front then front else front + [id]
  }

  method UniqueCellIDs(ids: seq<string>) returns (out: seq<string>)
    ensures out == Unique(ids)
  {
    hide TrimSpace;
    out := [];
    var seen: set<string> := {};
    for i := 0 to |ids|
      invariant out == Unique(ids[..i])
      invariant forall id :: id in seen <==> id in out
    {
      assert ids[..i + 1][..i] == ids[..i];
      var id := TrimSpace(ids[i]);
      if id != "" && id !in seen {
        seen := seen + {id};
        out := out + [id];
      }
    }
    assert ids[..|ids|] == ids;
  }

  /** The distinct, trimmed, non-empty ids of the request. */
  lemma {:induction false} UniqueMeans(ids: seq<string>)
    ensures forall id :: id in Unique(ids) <==> id != "" && exists i :: 0 <= i < |ids| && TrimSpace(ids[i]) == id
    ensures forall i, j :: 0 <= i < j < |Unique(ids)| ==> Unique(ids)[i] != Unique(ids)[j]
  {
    hide TrimSpace;
    if ids != [] {
      var front := ids[..|ids| - 1];
      UniqueMeans(front);
      assert forall i :: 0 <= i < |front| ==> front[i] == ids[i];
    }
  }

  /** The ids stand in the order of their first occurrences: more ids only add at the end. */
  lemma {:induction false} UniqueExtends(ids: seq<string>, n: nat)
    requires n <= |ids|
    ensures Unique(ids[..n]) <= Unique(ids)
    decreases |ids|
  {
    hide TrimSpace;
    if n == |ids| {
      assert ids[..n] == ids;
    } else {
      UniqueExtends(ids[..|ids| - 1], n);
      assert ids[..|ids| - 1][..n] == ids[..n];
    }
  }

  // ---------------------------------------------------------------- draining

  function SetDrain(cells: Cells, id: string, on: bool): Cells {
    if id in cells then cells[id := cells[id].(drain := on)] else cells
  }

  function SetDrains(cells: Cells, ids: seq<string>, on: bool): Cells {
    if ids == [] then cells else SetDrain(SetDrains(cells, ids[..|ids| - 1], on), ids[|ids| - 1], on)
  }

  predicate SameButDrain(c: Cell, d: Cell) {
    d == c.(drain := d.drain)
  }

  predicate AllSameButDrain(a: Cells, b: Cells) {
    a.Keys == b.Keys && forall id <- a :: SameButDrain(a[id], b[id])
  }

  lemma {:induction false} DrainsOnly(cells: Cells, ids: seq<string>, on: bool)
    ensures AllSameButDrain(cells, SetDrains(cells, ids, on))
    ensures forall id <- cells :: SetDrains(cells, ids, on)[id].drain == if id in ids then on else cells[id].drain
  {
    if ids != [] {
      DrainsOnly(cells, ids[..|ids| - 1], on);
    }
  }

  // ---------------------------------------------------------------- export and import

  function MergedSave(parts: seq<CellPersist>): CellPersist {
    CellPersist(SCHEMA_VERSION, 0, 0.0, Concat(seq(|parts|, i requires 0 <= i < |parts| => parts[i].entities)))
  }

  function Imported(cells: Cells, parent: string, parts: seq<CellPersist>): Cells
    requires parent in cells
  {
    cells[parent := Import(cells[parent], MergedSave(parts)).0]
  }

  ghost predicate AreExports(cells: Cells, order: seq<string>, parts: seq<CellPersist>) {
    |parts| == |order| && forall i :: 0 <= i < |order| ==> order[i] in cells && IsExport(cells[order[i]], parts[i])
  }

  /** What the cells hold besides players. */
  ghost function NpcMaps(cells: Cells, order: seq<string>): seq<map<Entity, Npc>>
    requires forall i :: 0 <= i < |order| ==> order[i] in cells
  {
    seq(|order|, i requires 0 <= i < |order| => NpcsOf(cells[order[i]].world, cells[order[i]].players))
  }

  // ---------------------------------------------------------------- the hypotheses of a quiet merge

  ghost function SetOf(order: seq<string>): set<string> {
    set id <- order
  }

  function PlayerTotal(cells: Cells, order: seq<string>): nat {
    if order == [] then 0
    else PlayerTotal(cells, order[..|order| - 1]) +
         (if order[|order| - 1] in cells then |cells[order[|order| - 1]].playerByID| else 0)
  }

  /** Every registration of the children, with the child it is in. */
  function Registrations(cells: Cells, order: seq<string>): set<Candidate> {
    set id <- order, p <- (if id in cells then cells[id].playerByID.Keys else {}) :: Candidate(id, p)
  }

  /** The total counts the registrations in the children, each once. */
  lemma {:induction false} TotalCounts(cells: Cells, order: seq<string>)
    requires AllDifferent(order)
    ensures PlayerTotal(cells, order) == |Registrations(cells, order)|
  {
    if order != [] {
      var front, id := order[..|order| - 1], order[|order| - 1];
      assert order == front + [id] && id !in front;
      TotalCounts(cells, front);
      var here := if id in cells then cells[id].playerByID.Keys else {};
      var added := set p <- here :: Candidate(id, p);
      NamedCount(id, here, added);
      RegistrationsGrow(cells, front, id, added);
    }
  }

  lemma RegistrationsGrow(cells: Cells, front: seq<string>, id: string, added: set<Candidate>)
    requires id !in front && added == set p <- (if id in cells then cells[id].playerByID.Keys else {}) :: Candidate(id, p)
    ensures |Registrations(cells, front + [id])| == |Registrations(cells, front)| + |added|
  {
    var all := front + [id];
    forall x <- front ensures x in all && x != id {
    }
    assert id in all;
    assert Registrations(cells, all) == Registrations(cells, front) + added;
    assert Registrations(cells, front) !! added;
  }

  lemma {:induction false} NamedCount(id: string, here: set<string>, added: set<Candidate>)
    requires added == set p <- here :: Candidate(id, p)
    ensures |added| == |here|
    decreases here
  {
    if here != {} {
      var p :| p in here;
      assert added - {Candidate(id, p)} == set q <- here - {p} :: Candidate(id, q);
      NamedCount(id, here - {p}, added - {Candidate(id, p)});
    }
  }

  /** Player ids are stored trimmed. */
  predicate Clean(c: Cell) {
    forall p <- c.playerByID :: TrimSpace(p) == p
  }

  ghost predicate StrictlyAdvancing(clock: nat -> nat) {
    (forall i: nat :: clock(i) > 0) && forall i: nat, j: nat :: i < j ==> clock(i) < clock(j)
  }

  /** No cell knows a token of the times to come. */
  ghost predicate UnusedTokens(cells: Cells, clock: nat -> nat) {
    forall c: Candidate, i: nat :: TokenFresh(cells, TokenFor(c, clock(i)))
  }

  /** Enough entity ids are left for all players of the children. */
  predicate Roomy(cells: Cells, id: string, total: nat) {
    id in cells && cells[id].world.nextID + 1 + total < ID_SPACE
  }

  /** Parent and children are distinct, sound, reachable cells with room for the
      players; the clock moves forward and its tokens are new. */
  ghost predicate Ready(cells: Cells, parent: string, order: seq<string>, clock: nat -> nat) {
    parent != "" && "" !in order && parent !in order &&
    FamilySound(cells, parent, SetOf(order)) && (forall id <- order :: Clean(cells[id])) &&
    StrictlyAdvancing(clock) && UnusedTokens(cells, clock) &&
    Roomy(cells, parent, PlayerTotal(cells, order)) && forall id <- order :: Roomy(cells, id, PlayerTotal(cells, order))
  }

  /** Cells that have not taken part in a handoff yet are ready, with any clock that moves forward. */
  lemma IdleIsReady(cells: Cells, parent: string, order: seq<string>, clock: nat -> nat)
    requires parent != "" && "" !in order && parent !in order && StrictlyAdvancing(clock)
    requires FamilySound(cells, parent, SetOf(order)) && forall id <- order :: id in cells && Clean(cells[id])
    requires forall id <- cells :: cells[id].preparedByTk == map[] && cells[id].acceptedByTk == map[]
    requires Roomy(cells, parent, PlayerTotal(cells, order)) && forall id <- order :: Roomy(cells, id, PlayerTotal(cells, order))
    ensures Ready(cells, parent, order, clock)
  {
    hide TokenFor, Inv, Clean, Roomy, PlayerTotal;
  }

  /** The candidates found: all the children's players, each once. */
  ghost predicate ListingOf(todo: seq<Candidate>, order: seq<string>, cells: Cells) {
    (forall c <- todo :: c.child in order) &&
    ((forall id <- order :: id in cells && Inv(cells[id]) && Clean(cells[id])) ==> FullListing(todo, order, cells))
  }

  ghost predicate FullListing(todo: seq<Candidate>, order: seq<string>, cells: Cells) {
    AllDifferent(todo) &&
    (forall c <- todo :: c.child in cells && c.player in cells[c.child].playerByID) &&
    ListsAll(cells, SetOf(order), todo) && |todo| <= PlayerTotal(cells, order)
  }

  predicate AllDifferent<T(==)>(s: seq<T>) {
    forall i, j :: 0 <= i < j < |s| ==> s[i] != s[j]
  }

  // ---------------------------------------------------------------- what a merge does

  /** However it ends: nobody of the family is lost or gained, the children's
      other entities stay, nothing outside the family changes, draining is off. */
  ghost predicate Kept(before: Cells, after: Cells, parent: string, order: seq<string>) {
    parent in before && SetOf(order) <= before.Keys && after.Keys == before.Keys &&
    Family(after, parent, SetOf(order)) == Family(before, parent, SetOf(order)) &&
    FamilySound(after, parent, SetOf(order)) &&
    (forall id <- order :: KeepsNpcs(before[id], after[id])) &&
    (forall id <- before :: id != parent && id !in order ==> after[id] == before[id])
  }

  /** On success: the parent has all the players and the last-wins union of the
      children's other entities; the children have no players. */
  ghost predicate Absorbed(before: Cells, after: Cells, parent: string, order: seq<string>)
    requires parent in before && (forall id <- order :: id in before) && after.Keys == before.Keys
  {
    (forall id <- order :: after[id].playerByID == map[]) &&
    after[parent].playerByID.Keys == Family(before, parent, SetOf(order)) &&
    NpcsOf(after[parent].world, after[parent].players) == LastWins(NpcMaps(before, order))
  }

  // ---------------------------------------------------------------- the import leaves a sound, empty parent

  lemma {:induction false} RestoredCounter(w: WorldState, records: seq<NpcRecord>, bound: nat)
    requires w.nextID <= bound && bound < ID_SPACE && forall r <- records :: r.id + 1 <= bound
    ensures RestoreAll(w, records).nextID <= bound
  {
    if records != [] {
      var r := records[|records| - 1];
      assert r in records;
      assert forall q <- records[..|records| - 1] :: q in records;
      RestoredCounter(w, records[..|records| - 1], bound);
    }
  }

  lemma {:induction false} MeaningHasIds(records: seq<NpcRecord>)
    ensures forall r <- records :: r.id == 0 || r.id in Meaning(records)
  {
    if records != [] {
      MeaningHasIds(records[..|records| - 1]);
      assert records == records[..|records| - 1] + [records[|records| - 1]];
    }
  }

  lemma {:induction false} ConcatMembers(lists: seq<seq<NpcRecord>>)
    ensures forall r <- Concat(lists) :: exists i :: 0 <= i < |lists| && r in lists[i]
  {
    if lists != [] {
      var front := lists[..|lists| - 1];
      ConcatMembers(front);
      assert forall i :: 0 <= i < |front| ==> front[i] == lists[i];
      assert lists[|lists| - 1] == lists[|lists| - 1];
    }
  }

  /** Every saved id is at most some child's counter. */
  lemma SavedIdsBounded(cells: Cells, order: seq<string>, parts: seq<CellPersist>, bound: nat)
    requires AreExports(cells, order, parts)
    requires forall id <- order :: Inv(cells[id]) && cells[id].world.nextID + 1 <= bound
    requires bound >= 1
    ensures forall r <- MergedSave(parts).entities :: r.id + 1 <= bound
  {
    var lists := seq(|parts|, i requires 0 <= i < |parts| => parts[i].entities);
    ConcatMembers(lists);
    forall r <- MergedSave(parts).entities ensures r.id + 1 <= bound {
      var i :| 0 <= i < |lists| && r in lists[i];
      assert order[i] in order && IsExport(cells[order[i]], parts[i]);
      MeaningHasIds(parts[i].entities);
      if r.id != 0 {
        assert r.id in NpcsOf(cells[order[i]].world, cells[order[i]].players);
        assert EntitiesPresent(cells[order[i]]);
      }
    }
  }

  lemma ImportSound(cells: Cells, parent: string, order: seq<string>, parts: seq<CellPersist>, total: nat)
    requires parent in cells && Inv(cells[parent]) && |cells[parent].playerByID| == 0
    requires AreExports(cells, order, parts) && forall id <- order :: Inv(cells[id]) && Roomy(cells, id, total)
    requires Roomy(cells, parent, total)
    ensures var d := Imported(cells, parent, parts)[parent];
            Inv(d) && RoomFor(d, total) && d.playerByID == map[] && d.players == {} &&
            d.preparedByTk == cells[parent].preparedByTk && d.acceptedByTk == cells[parent].acceptedByTk &&
            NpcsOf(d.world, d.players) == LastWins(NpcMaps(cells, order))
  {
    hide Inv;
    var c, p := cells[parent], MergedSave(parts);
    var bound: nat := ID_SPACE - 1 - total;
    assert bound >= 1 by { assert c.world.nextID + 1 + total < ID_SPACE; }
    SavedIdsBounded(cells, order, parts, bound);
    RestoredCounter(Cleared(c.world), p.entities, bound);
    LowIdsFit(p.entities);
    EmptyImport(c, p);
    ImportMeans(cells, parent, order, parts);
  }

  lemma LowIdsFit(records: seq<NpcRecord>)
    requires forall r <- records :: r.id + 1 < ID_SPACE
    ensures IdsFit(records)
  {
    assert forall i | 0 <= i < |records| :: records[i] in records;
  }

  lemma EmptyImport(c: Cell, p: CellPersist)
    requires Inv(c) && |c.playerByID| == 0 && IdsFit(p.entities) && p.schema == SCHEMA_VERSION
    ensures var d := Import(c, p).0;
            Inv(d) && d == c.(world := DecodedWorld(c.world, p), loop := DecodedLoop(c.loop, p)) &&
            d.playerByID == map[] && d.players == {}
  {
    RestoreKeepsFreshIds(Cleared(c.world), p.entities);
    hide RestoreAll, Cleared;
    var d := Import(c, p).0;
    assert c.playerByID == map[];
    forall tok | tok in d.preparedByTk ensures RecordLinked(d, tok) {
      assert RecordLinked(c, tok);
    }
  }

  lemma ImportMeans(cells: Cells, parent: string, order: seq<string>, parts: seq<CellPersist>)
    requires parent in cells && AreExports(cells, order, parts)
    ensures NpcsOf(DecodedWorld(cells[parent].world, MergedSave(parts)), {}) == LastWins(NpcMaps(cells, order))
  {
    var lists := seq(|parts|, i requires 0 <= i < |parts| => parts[i].entities);
    forall i | 0 <= i < |parts|
      ensures Meaning(lists[i]) == NpcMaps(cells, order)[i] && |lists[i]| == |NpcMaps(cells, order)[i]|
    {
      assert IsExport(cells[order[i]], parts[i]);
    }
    ConcatMeans(lists, NpcMaps(cells, order));
    RestoreMeans(Cleared(cells[parent].world), MergedSave(parts).entities);
  }

  // ---------------------------------------------------------------- the merge theorem

  /** The course of a merge from the guards on, as a value. */
  datatype Course = Course(parent: string, order: seq<string>, parts: seq<CellPersist>, todo: seq<Candidate>,
                           drained: Cells, imported: Cells, moved: Cells, complete: bool)

  ghost predicate Follows(before: Cells, x: Course, after: Cells, clock: nat -> nat, reach: nat -> Handoff.Reach) {
    x.drained == SetDrains(before, [x.parent] + x.order, true) && x.parent in before && |before[x.parent].playerByID| == 0 &&
    x.drained.Keys == before.Keys &&
    AreExports(x.drained, x.order, x.parts) && x.imported == Imported(x.drained, x.parent, x.parts) &&
    ListingOf(x.todo, x.order, x.imported) &&
    (x.moved, x.complete) == Move(x.imported, x.parent, x.todo, clock, reach) &&
    after == SetDrains(x.moved, x.order + [x.parent], false)
  }

  lemma DrainCarries(c: Cell, d: Cell)
    requires SameButDrain(c, d)
    ensures Inv(c) <==> Inv(d)
    ensures c.playerByID == d.playerByID && c.players == d.players && c.world == d.world
    ensures c.preparedByTk == d.preparedByTk && c.acceptedByTk == d.acceptedByTk
    ensures forall p, now: nat :: InFlight(c, p, now) <==> InFlight(d, p, now)
  {
    assert forall tok <- c.preparedByTk :: RecordLinked(c, tok) <==> RecordLinked(d, tok);
    assert forall p, tok :: HasOpenRecord(c, p, tok) <==> HasOpenRecord(d, p, tok);
  }

  /** Ready for the handoffs: what the drained cells and the import leave. */
  ghost predicate ReadyToMove(before: Cells, x: Course, clock: nat -> nat) {
    FamilySound(x.imported, x.parent, SetOf(x.order)) && x.imported.Keys == before.Keys &&
    FromChildren(x.imported, x.parent, SetOf(x.order), x.todo) && FreshTokens(x.imported, x.todo, clock) &&
    ProperList(x.imported, x.parent, SetOf(x.order), x.todo) && ListsAll(x.imported, SetOf(x.order), x.todo) &&
    RoomFor(x.imported[x.parent], |x.todo|) &&
    NpcsOf(x.imported[x.parent].world, x.imported[x.parent].players) == LastWins(NpcMaps(before, x.order)) &&
    x.imported[x.parent].playerByID == map[] &&
    (forall id <- before | id != x.parent :: SameButDrain(before[id], x.imported[id]))
  }

  ghost predicate Mirrors(a: Cells, b: Cells) {
    a.Keys == b.Keys && forall id <- a :: SameButDrain(a[id], b[id]) && (Inv(a[id]) <==> Inv(b[id]))
  }

  lemma DrainMirrors(a: Cells, b: Cells)
    requires AllSameButDrain(a, b)
    ensures Mirrors(a, b)
  {
    hide Inv;
    forall id <- a ensures Inv(a[id]) <==> Inv(b[id]) {
      DrainCarries(a[id], b[id]);
    }
  }

  /** Draining and the import leave the children as they were and the parent sound and empty. */
  lemma ImportedState(before: Cells, x: Course, clock: nat -> nat)
    requires Ready(before, x.parent, x.order, clock) && Mirrors(before, x.drained) && |before[x.parent].playerByID| == 0
    requires AreExports(x.drained, x.order, x.parts) && x.imported == Imported(x.drained, x.parent, x.parts)
    ensures x.imported.Keys == before.Keys && FamilySound(x.imported, x.parent, SetOf(x.order))
    ensures forall id <- before | id != x.parent :: SameButDrain(before[id], x.imported[id])
    ensures var d := x.imported[x.parent];
            RoomFor(d, PlayerTotal(before, x.order)) && d.playerByID == map[] &&
            d.preparedByTk == before[x.parent].preparedByTk && d.acceptedByTk == before[x.parent].acceptedByTk &&
            NpcsOf(d.world, d.players) == LastWins(NpcMaps(x.drained, x.order))
  {
    hide Inv, AreExports, Imported, NpcsOf, LastWins, PlayerTotal, UnusedTokens, Clean;
    var total := PlayerTotal(before, x.order);
    assert x.parent in before;
    forall id <- x.order ensures id in x.drained && Inv(x.drained[id]) && Roomy(x.drained, id, total) {
      assert id in SetOf(x.order);
      assert Roomy(before, id, total);
    }
    ImportSound(x.drained, x.parent, x.order, x.parts, total);
    OnlyParentImports(x.drained, x.parent, x.parts);
    assert forall id <- SetOf(x.order) :: id in x.order;
  }

  lemma OnlyParentImports(cells: Cells, parent: string, parts: seq<CellPersist>)
    requires parent in cells
    ensures Imported(cells, parent, parts).Keys == cells.Keys
    ensures forall id <- cells | id != parent :: Imported(cells, parent, parts)[id] == cells[id]
  {
    hide Import;
  }

  lemma SameNpcMaps(a: Cells, b: Cells, order: seq<string>)
    requires Mirrors(a, b) && forall i :: 0 <= i < |order| ==> order[i] in a
    ensures NpcMaps(a, order) == NpcMaps(b, order)
  {
    hide Inv, NpcsOf;
    assert forall i :: 0 <= i < |order| ==> SameButDrain(a[order[i]], b[order[i]]);
  }

  lemma {:induction false} SameTotal(a: Cells, b: Cells, order: seq<string>)
    requires forall id <- order :: (id in a <==> id in b) && (id in a ==> a[id].playerByID == b[id].playerByID)
    ensures PlayerTotal(a, order) == PlayerTotal(b, order)
  {
    if order != [] {
      SameTotal(a, b, order[..|order| - 1]);
      assert order[|order| - 1] in order;
    }
  }

  lemma FreshForAll(before: Cells, imported: Cells, parent: string, todo: seq<Candidate>, clock: nat -> nat)
    requires before.Keys == imported.Keys && UnusedTokens(before, clock) && StrictlyAdvancing(clock)
    requires forall id <- before :: imported[id].preparedByTk == before[id].preparedByTk && imported[id].acceptedByTk == before[id].acceptedByTk
    ensures FreshTokens(imported, todo, clock) && Advancing(clock)
  {
    hide TokenFor;
    forall i: nat | i < |todo| ensures TokenFresh(imported, TokenFor(todo[i], clock(i))) {
      assert TokenFresh(before, TokenFor(todo[i], clock(i)));
    }
    forall i: nat, j: nat | i < j < |todo| ensures TokenFor(todo[i], clock(i)) != TokenFor(todo[j], clock(j)) {
      TokensDiffer(todo[i], todo[j], clock(i), clock(j));
    }
  }

  lemma MoveCanStart(before: Cells, x: Course, after: Cells, clock: nat -> nat, reach: nat -> Handoff.Reach)
    requires Ready(before, x.parent, x.order, clock) && Follows(before, x, after, clock, reach)
    ensures ReadyToMove(before, x, clock)
  {
    hide Inv, AreExports, Imported, NpcsOf, LastWins, PlayerTotal, UnusedTokens, StrictlyAdvancing, Move,
         FreshTokens, NpcMaps, Clean, RoomFor, ListsAll, SetDrains;
    DrainsOnly(before, [x.parent] + x.order, true);
    DrainMirrors(before, x.drained);
    ImportedState(before, x, clock);
    assert forall i :: 0 <= i < |x.order| ==> x.order[i] in SetOf(x.order);
    SameNpcMaps(before, x.drained, x.order);
    assert forall id <- SetOf(x.order) :: id in x.order;
    forall id <- x.order ensures id in x.imported && Inv(x.imported[id]) && Clean(x.imported[id])
      && x.imported[id].playerByID == before[id].playerByID
    {
      assert id in SetOf(x.order);
      CleanCarries(before[id], x.imported[id]);
    }
    SameTotal(before, x.imported, x.order);
    FreshForAll(before, x.imported, x.parent, x.todo, clock);
    RoomShrinks(x.imported[x.parent], PlayerTotal(before, x.order), |x.todo|);
  }

  lemma CleanCarries(c: Cell, d: Cell)
    requires SameButDrain(c, d) && Clean(c)
    ensures Clean(d)
  {
    hide TrimSpace;
  }

  lemma RoomShrinks(c: Cell, n: nat, m: nat)
    requires RoomFor(c, n) && m <= n
    ensures RoomFor(c, m)
  {
  }

  /** A whole merge, however far its handoffs get. */
  lemma MergeTheorem(before: Cells, x: Course, after: Cells, clock: nat -> nat, reach: nat -> Handoff.Reach)
    requires Ready(before, x.parent, x.order, clock) && Follows(before, x, after, clock, reach)
    ensures Kept(before, after, x.parent, x.order)
    ensures x.complete ==> Absorbed(before, after, x.parent, x.order)
    ensures (forall i: nat :: reach(i) == Handoff.Finished) ==> (x.complete <==> NobodyInFlight(before, x.todo, clock))
  {
    hide *;
    CourseFacts(before, x, after, clock, reach);
    var kids := SetOf(x.order);
    MergeKeepsPlayers(x.imported, x.parent, kids, x.todo, clock, reach);
    MergeKeepsNpcs(x.imported, x.parent, kids, x.todo, clock, reach, 0);
    EmptyParentFamily(before, x, clock);
    WhatKeptNeeds(before, x, clock);
    KeptBy(before, x, after) by { DrainsStay(before, x, after); }
    if x.complete {
      MergeEmptiesChildren(x.imported, x.parent, kids, x.todo, clock, reach);
      AbsorbedBy(before, x, after, clock);
    }
    if forall i: nat :: reach(i) == Handoff.Finished {
      MergeCompletes(x.imported, x.parent, kids, x.todo, clock, reach, 0);
      SameFlights(before, x, clock);
    }
  }

  /** The facts about a course that the results on sequences of handoffs ask for. */
  lemma CourseFacts(before: Cells, x: Course, after: Cells, clock: nat -> nat, reach: nat -> Handoff.Reach)
    requires Ready(before, x.parent, x.order, clock) && Follows(before, x, after, clock, reach)
    ensures ReadyToMove(before, x, clock) && Advancing(clock) && x.parent in before && |before[x.parent].playerByID| == 0
    ensures FamilySound(x.imported, x.parent, SetOf(x.order)) && FromChildren(x.imported, x.parent, SetOf(x.order), x.todo)
    ensures FreshTokens(x.imported, x.todo, clock) && ProperList(x.imported, x.parent, SetOf(x.order), x.todo)
    ensures ListsAll(x.imported, SetOf(x.order), x.todo) && x.parent in x.imported && RoomFor(x.imported[x.parent], |x.todo|)
    ensures (x.moved, x.complete) == Move(x.imported, x.parent, x.todo, clock, reach)
    ensures AllSameButDrain(x.moved, after) && x.moved.Keys == after.Keys && x.imported.Keys == before.Keys && x.parent in x.drained
    ensures x.drained == SetDrains(before, [x.parent] + x.order, true) && x.imported == Imported(x.drained, x.parent, x.parts)
    ensures after == SetDrains(x.moved, x.order + [x.parent], false)
  {
    hide Move, FreshTokens, NpcMaps, NpcsOf, LastWins, ListsAll, RoomFor, Inv, Imported, AreExports, ListingOf,
         SetDrains, UnusedTokens, Roomy, PlayerTotal, Clean;
    MoveCanStart(before, x, after, clock, reach);
    DrainsOnly(x.moved, x.order + [x.parent], false);
  }

  /** Outside the family draining is not touched. */
  lemma DrainsStay(before: Cells, x: Course, after: Cells)
    requires x.imported.Keys == before.Keys == x.moved.Keys == after.Keys && x.parent in x.drained
    requires x.drained == SetDrains(before, [x.parent] + x.order, true) && x.imported == Imported(x.drained, x.parent, x.parts)
    requires after == SetDrains(x.moved, x.order + [x.parent], false)
    ensures forall id <- before :: id != x.parent && id !in x.order ==> x.imported[id].drain == before[id].drain && after[id].drain == x.moved[id].drain
  {
    hide SetDrains, Import;
    DrainsOnly(before, [x.parent] + x.order, true);
    DrainsOnly(x.moved, x.order + [x.parent], false);
  }

  lemma EmptyParentFamily(before: Cells, x: Course, clock: nat -> nat)
    requires ReadyToMove(before, x, clock) && |before[x.parent].playerByID| == 0
    ensures Family(x.imported, x.parent, SetOf(x.order)) == Family(before, x.parent, SetOf(x.order))
  {
    hide Inv, FreshTokens, RoomFor, ListsAll, ProperList, NpcsOf, NpcMaps, LastWins;
    assert before[x.parent].playerByID == map[];
  }

  lemma MirrorFamily(a: Cells, b: Cells, parent: string, kids: set<string>)
    requires AllSameButDrain(a, b)
    ensures Family(a, parent, kids) == Family(b, parent, kids)
  {
  }

  lemma MirrorKeeps(c: Cell, d: Cell, e: Cell)
    requires KeepsNpcs(c, d) && SameButDrain(d, e)
    ensures KeepsNpcs(c, e)
  {
    hide Inv;
    DrainCarries(d, e);
  }

  lemma KeepsFrom(c: Cell, d: Cell, e: Cell)
    requires SameButDrain(c, d) && KeepsNpcs(d, e)
    ensures KeepsNpcs(c, e)
  {
    hide Inv;
  }

  lemma KeptBy(before: Cells, x: Course, after: Cells)
    requires x.parent in before && SetOf(x.order) <= before.Keys && x.parent !in SetOf(x.order)
    requires before.Keys == x.imported.Keys == x.moved.Keys
    requires forall id <- before | id != x.parent :: SameButDrain(before[id], x.imported[id])
    requires Family(x.imported, x.parent, SetOf(x.order)) == Family(before, x.parent, SetOf(x.order))
    requires Family(x.moved, x.parent, SetOf(x.order)) == Family(x.imported, x.parent, SetOf(x.order))
    requires forall id <- x.imported :: id != x.parent && id !in SetOf(x.order) ==> x.moved[id] == x.imported[id]
    requires FamilySound(x.moved, x.parent, SetOf(x.order)) && forall id <- SetOf(x.order) :: KeepsNpcs(x.imported[id], x.moved[id])
    requires AllSameButDrain(x.moved, after)
    requires forall id <- before :: id != x.parent && id !in x.order ==> x.imported[id].drain == before[id].drain && after[id].drain == x.moved[id].drain
    ensures Kept(before, after, x.parent, x.order)
  {
    MirrorFamily(x.moved, after, x.parent, SetOf(x.order));
    hide Inv, Family, KeepsNpcs;
    forall id <- SetOf(x.order) ensures KeepsNpcs(before[id], after[id]) && Inv(after[id]) {
      KeepsFrom(before[id], x.imported[id], x.moved[id]);
      MirrorKeeps(before[id], x.moved[id], after[id]);
      DrainCarries(x.moved[id], after[id]);
    }
    assert forall id <- x.order :: id in SetOf(x.order);
    DrainCarries(x.moved[x.parent], after[x.parent]);
  }

  lemma WhatKeptNeeds(before: Cells, x: Course, clock: nat -> nat)
    requires ReadyToMove(before, x, clock)
    ensures SetOf(x.order) <= before.Keys && x.parent !in SetOf(x.order)
    ensures forall id <- before | id != x.parent :: id in x.imported && SameButDrain(before[id], x.imported[id])
  {
    hide Inv, FreshTokens, RoomFor, ListsAll, ProperList, NpcsOf, NpcMaps, LastWins;
  }

  lemma AbsorbedBy(before: Cells, x: Course, after: Cells, clock: nat -> nat)
    requires ReadyToMove(before, x, clock) && |before[x.parent].playerByID| == 0
    requires x.moved.Keys == x.imported.Keys && AllSameButDrain(x.moved, after)
    requires forall id <- SetOf(x.order) :: x.moved[id].playerByID == map[]
    requires x.moved[x.parent].playerByID.Keys == Family(x.imported, x.parent, SetOf(x.order))
    requires KeepsNpcs(x.imported[x.parent], x.moved[x.parent])
    ensures x.parent in before && after.Keys == before.Keys && (forall id <- x.order :: id in before)
    ensures Absorbed(before, after, x.parent, x.order)
  {
    EmptyParentFamily(before, x, clock);
    hide Inv, FreshTokens, RoomFor, ListsAll, ProperList, NpcsOf, NpcMaps, LastWins, Family;
    assert forall id <- x.order :: id in SetOf(x.order);
    assert SameButDrain(x.moved[x.parent], after[x.parent]);
  }

  lemma SameFlights(before: Cells, x: Course, clock: nat -> nat)
    requires ReadyToMove(before, x, clock)
    ensures NobodyInFlight(before, x.todo, clock) <==> NobodyInFlight(x.imported, x.todo, clock)
  {
    hide Inv, FreshTokens, RoomFor, ListsAll, ProperList, NpcsOf, NpcMaps, LastWins, Family, InFlight;
    forall i: nat | i < |x.todo|
      ensures x.todo[i].child in before && x.todo[i].child in x.imported
      ensures InFlight(before[x.todo[i].child], x.todo[i].player, clock(i)) <==> InFlight(x.imported[x.todo[i].child], x.todo[i].player, clock(i))
    {
      assert x.todo[i] in x.todo;
      DrainCarries(before[x.todo[i].child], x.imported[x.todo[i].child]);
    }
  }

  // ---------------------------------------------------------------- the registry's merge call

  datatype Failure =
    | ParentRequired | AlreadyMerging | NeedFour | ParentNotFound | ChildrenUnresolved(why: Siblings.MatchError)
    | ChildMismatch(id: string) | GeometryInvalid | Unreachable(id: string) | ParentHasPlayers | ChildHasPlayers(id: string)
    | TooManyPlayers | ImportFailed | HandoffFailed | NotSaved

  datatype Report = Report(childCount: nat, npcCount: nat, movedPlayers: nat)

  /** The process environment and what the outside does during one merge. */
  datatype Env = Env(handoffEnabled: bool, maxPlayers: nat, clock: nat -> nat, reach: nat -> Handoff.Reach, saved: bool)

  class Registry {
    const store: Catalog.Memory
    /** The cells the registry can dial, by id. */
    var cells: Cells
    var merging: set<string>

    constructor (store: Catalog.Memory, cells: Cells)
      ensures this.store == store && this.cells == cells && merging == {}
    {
      this.store, this.cells, this.merging := store, cells, {};
    }

    method SetSplitDrain(id: string, on: bool)
      modifies this`cells
      ensures cells == SetDrain(old(cells), id, on)
    {
      if id in cells {
        cells := cells[id := cells[id].(drain := on)];
      }
    }

    method SetSplitDrains(ids: seq<string>, on: bool)
      modifies this`cells
      ensures cells == SetDrains(old(cells), ids, on)
    {
      for i := 0 to |ids|
        invariant cells == SetDrains(old(cells), ids[..i], on)
      {
        assert ids[..i + 1][..i] == ids[..i];
        SetSplitDrain(ids[i], on);
      }
      assert ids[..|ids|] == ids;
    }

    /** The three-step driver over two dialled cells. */
    method ForwardPlayerHandoff(parentCellID: string, childCellID: string, player: string, token: string,
                                now: nat, reach: Handoff.Reach)
      returns (outcome: Handoff.Outcome)
      modifies this`cells
      ensures (cells, outcome) == Handoff.Drive(old(cells), TrimSpace(parentCellID), TrimSpace(childCellID), TrimSpace(player), TrimSpace(token), now, reach)
    {
      hide TrimSpace, Prepare, Accept, Finalize;
      var parent, child, pid, tok := TrimSpace(parentCellID), TrimSpace(childCellID), TrimSpace(player), TrimSpace(token);
      if parent == "" || child == "" || pid == "" || tok == "" || parent == child {
        return Handoff.Rejected;
      }
      if parent !in cells || child !in cells {
        return Handoff.NotFound;
      }
      if reach.Nowhere? {
        return Handoff.PrepareFailed;
      }
      var (source, prep) := Prepare(cells[parent], pid, child, tok, now);
      cells := cells[parent := source];
      if !prep.ok || prep.payload.None? || reach.Prepared? {
        return Handoff.PrepareFailed;
      }
      var payload := prep.payload.value.(source := parent, target := child, token := tok);
      var (target, acc) := Accept(cells[child], payload);
      cells := cells[child := target];
      if !acc.ok || acc.entity == 0 || reach.Accepted? {
        return Handoff.AcceptFailed;
      }
      var (closed, fin) := Finalize(cells[parent], pid, tok);
      cells := cells[parent := closed];
      outcome := if fin.ok then Handoff.Done(acc.entity) else Handoff.FinalizeFailed;
    }

    /** Candidates of one child: trimmed, non-empty player ids. */
    method ListMergePlayerCandidates(child: string) returns (out: seq<Candidate>)
      requires child in cells
      ensures forall c <- out :: c.child == child && TrimSpace(c.player) == c.player
      ensures Inv(cells[child]) && Clean(cells[child]) ==>
                ((forall p :: Candidate(child, p) in out <==> p in cells[child].playerByID) &&
                 |out| == |cells[child].playerByID| && AllDifferent(out))
    {
      hide TrimSpace;
      var ids := CellServer.MigrationPlayersOf(cells[child]);
      out := [];
      ghost var neat := Inv(cells[child]) && Clean(cells[child]);
      hide Inv;
      NoUnnamed(cells[child]);
      for i := 0 to |ids|
        invariant |out| <= i && forall c <- out :: c.child == child && TrimSpace(c.player) == c.player
        invariant neat ==> |out| == i && forall k :: 0 <= k < i ==> out[k] == Candidate(child, ids[k])
      {
        var pid := TrimSpace(ids[i]);
        TrimIsIdempotent(ids[i]);
        if neat {
          assert ids[i] in cells[child].playerByID;
        }
        if pid != "" {
          out := out + [Candidate(child, pid)];
        }
      }
      if neat {
        forall p | p in cells[child].playerByID ensures Candidate(child, p) in out {
          var k :| 0 <= k < |ids| && ids[k] == p;
          assert out[k] == Candidate(child, p);
        }
        forall p | Candidate(child, p) in out ensures p in cells[child].playerByID {
          var k :| 0 <= k < |out| && out[k] == Candidate(child, p);
          assert ids[k] in ids;
        }
      }
    }

    static lemma NoUnnamed(c: Cell)
      ensures Inv(c) ==> "" !in c.playerByID
    {
    }

    /** Lists the players of every child, then hands them over one by one. */
    method RunMergePlayerHandoffs(parent: string, order: seq<string>, env: Env) returns (ok: bool, moved: nat, ghost todo: seq<Candidate>)
      requires TrimSpace(parent) == parent && AllDifferent(order) && forall id <- order :: id in cells && TrimSpace(id) == id
      modifies this`cells
      ensures (cells, ok) == Move(old(cells), parent, todo, env.clock, env.reach)
      ensures ListingOf(todo, order, old(cells)) && moved == if ok then |todo| else 0
    {
      hide TrimSpace, Handoff.Drive, Inv, Clean;
      var candidates: seq<Candidate> := [];
      for i := 0 to |order|
        invariant cells == old(cells) && ListingOf(candidates, order[..i], cells)
        invariant forall c <- candidates :: TrimSpace(c.player) == c.player
      {
        assert order[i] in order;
        var more := ListMergePlayerCandidates(order[i]);
        ListOneMore(candidates, order, i, more, cells);
        candidates := candidates + more;
      }
      assert order[..|order|] == order;
      todo := candidates;
      assert todo[..0] == [];
      for i := 0 to |candidates|
        invariant (cells, true) == Move(old(cells), parent, todo[..i], env.clock, env.reach)
      {
        var c, now := candidates[i], env.clock(i);
        assert todo[..i + 1][..i] == todo[..i] && c in todo;
        var token := "merge:" + c.child + ":" + c.player + ":" + Decimal(now);
        var outcome := ForwardPlayerHandoff(c.child, parent, c.player, token, now, env.reach(i));
        if !outcome.Done? {
          FailedFrom(old(cells), parent, todo, env.clock, env.reach, i);
          return false, 0, todo;
        }
      }
      assert todo[..|todo|] == todo;
      ok, moved := true, |candidates|;
    }

    /** One export per child, in order. */
    method ExportChildren(order: seq<string>) returns (parts: seq<CellPersist>)
      requires forall id <- order :: id in cells && 0 !in cells[id].world.alive
      ensures AreExports(cells, order, parts)
    {
      hide Encodes;
      parts := [];
      for i := 0 to |order|
        invariant |parts| == i && forall k :: 0 <= k < i ==> IsExport(cells[order[k]], parts[k])
      {
        assert order[i] in order;
        var c := cells[order[i]];
        var part := Encode(c.world, c.loop, c.players);
        parts := parts + [part];
      }
    }

    /** Inside the drain window: export and concatenate, import, hand the players over. */
    method Transfer(parent: string, order: seq<string>, total: nat, env: Env)
      returns (r: Result<Report, Failure>, ghost parts: seq<CellPersist>, ghost todo: seq<Candidate>, ghost complete: bool)
      requires parent in cells && TrimSpace(parent) == parent && AllDifferent(order)
      requires forall id <- order :: id in cells && TrimSpace(id) == id && 0 !in cells[id].world.alive
      requires total == PlayerTotal(cells, order) && (!env.handoffEnabled ==> total == 0)
      modifies this`cells
      ensures |old(cells)[parent].playerByID| > 0 ==> r == Err(ImportFailed) && cells == old(cells)
      ensures |old(cells)[parent].playerByID| == 0 ==>
                AreExports(old(cells), order, parts) &&
                var imported := Imported(old(cells), parent, parts);
                ListingOf(todo, order, imported) && (cells, complete) == Move(imported, parent, todo, env.clock, env.reach) &&
                (r.Ok? <==> complete && env.saved) && r.Err? == (r == Err(HandoffFailed) || r == Err(NotSaved)) &&
                (r.Ok? ==> r.value == Report(|order|, |MergedSave(parts).entities|, |todo|))
    {
      hide TrimSpace, IsExport, Import, PlayerTotal, ListingOf, Move;
      var saves := ExportChildren(order);
      parts, todo, complete := saves, [], true;
      var (imported, accepted) := Import(cells[parent], MergedSave(saves));
      ImportAnswers(cells[parent], MergedSave(saves));
      assert cells[parent := cells[parent]] == cells;
      cells := cells[parent := imported];
      if !accepted {
        return Err(ImportFailed), parts, todo, complete;
      }
      SameTotal(old(cells), cells, order);
      NobodyToList(cells, order, total);
      MoveNone(cells, parent, env.clock, env.reach);
      var moved := 0;
      if env.handoffEnabled && total > 0 {
        var ok, count, listed := RunMergePlayerHandoffs(parent, order, env);
        todo, complete, moved := listed, ok, count;
        if !ok {
          return Err(HandoffFailed), parts, todo, complete;
        }
      }
      if !env.saved {
        return Err(NotSaved), parts, todo, complete;
      }
      r := Ok(Report(|order|, |MergedSave(saves).entities|, moved));
    }

    /** Copies the parent's other entities to a child, which must be empty of players. */
    method ForwardNpcHandoff(parent: string, child: string) returns (r: Result<nat, Failure>)
      requires forall id <- cells :: 0 !in cells[id].world.alive
      modifies this`cells
      ensures r.Err? ==> cells == old(cells)
      ensures r.Ok? <==> parent != "" && child != "" && parent != child && parent in old(cells) && child in old(cells) &&
                         |old(cells)[child].playerByID| == 0
      ensures r.Ok? ==> cells.Keys == old(cells).Keys && (forall id <- cells :: id != child ==> cells[id] == old(cells)[id]) &&
                        CopiedTo(old(cells)[parent], old(cells)[child], cells[child]) &&
                        r.value == |NpcsOf(old(cells)[parent].world, old(cells)[parent].players)|
    {
      hide NpcsOf, DecodedWorld, Meaning;
      if parent == "" || child == "" {
        return Err(ParentRequired);
      }
      if parent == child {
        return Err(ChildMismatch(child));
      }
      if parent !in cells {
        return Err(Unreachable(parent));
      }
      var source := cells[parent];
      var save := Encode(source.world, source.loop, source.players);
      if child !in cells {
        return Err(Unreachable(child));
      }
      var (target, accepted) := Import(cells[child], save);
      if !accepted {
        return Err(ImportFailed);
      }
      CopyMeans(source, cells[child], save);
      cells := cells[child := target];
      r := Ok(|save.entities|);
    }

    /** The catalogue's part of the guards: the four children it names. */
    method FindChildren(parent: string) returns (r: Result<(seq<Siblings.CellSpec>, seq<string>), Failure>)
      requires store.Valid()
      ensures r.Ok? ==> IsMatchedOrder(store.cells, parent, r.value.1) && AreValid(store.cells, parent, r.value.0)
      ensures r.Err? ==> r.error != GeometryInvalid && forall order :: !IsMatchedOrder(store.cells, parent, order)
    {
      hide Siblings.Mergeable, Siblings.AreMatches, Siblings.IDOf, Siblings.ValidMerge, Catalog.IsListing, IsMatchedOrder;
      MatchedIsMergeable(store.cells, parent);
      var spec := Catalog.FindCellByID(store, parent);
      if spec.None? || spec.value.bounds.None? {
        return Err(ParentNotFound);
      }
      var all := store.List();
      var found := Siblings.CatalogMergeChildren(spec, all);
      if found.Err? {
        return Err(ChildrenUnresolved(found.error));
      }
      var kids := found.value;
      MatchesAreFour(kids, spec.value.bounds.value, spec.value.level + 1, all);
      var order := [Siblings.IDOf(kids[0]), Siblings.IDOf(kids[1]), Siblings.IDOf(kids[2]), Siblings.IDOf(kids[3])];
      MatchIsOrder(store.cells, parent, all, kids, order);
      r := Ok((kids, order));
    }

    /** The players' part of the guards. */
    method CheckPlayers(parent: string, order: seq<string>, env: Env) returns (r: Result<nat, Failure>)
      ensures r.Ok? <==> PlayersAllow(cells, parent, order, env)
      ensures r.Ok? ==> r.value == PlayerTotal(cells, order)
      ensures r.Err? ==> r.error != GeometryInvalid
    {
      if parent !in cells {
        return Err(Unreachable(parent));
      }
      if |cells[parent].playerByID| > 0 {
        return Err(ParentHasPlayers);
      }
      var total := 0;
      for i := 0 to |order|
        invariant forall k :: 0 <= k < i ==> order[k] in cells
        invariant total == PlayerTotal(cells, order[..i]) && (!env.handoffEnabled ==> total == 0)
      {
        if order[i] !in cells {
          assert order[i] in order;
          return Err(Unreachable(order[i]));
        }
        assert order[..i + 1][..i] == order[..i];
        var players := |cells[order[i]].playerByID|;
        total := total + players;
        if !env.handoffEnabled && players > 0 {
          TotalGrows(cells, order, i + 1);
          return Err(ChildHasPlayers(order[i]));
        }
      }
      assert order[..|order|] == order;
      if env.handoffEnabled && env.maxPlayers > 0 && total > env.maxPlayers {
        return Err(TooManyPlayers);
      }
      r := Ok(total);
    }

    /** The guards before anything is touched: passed exactly when the catalogue
        names four children, the request names the same four, and parent and
        players allow it. The check of the geometry never fails here. */
    method CheckMerge(parent: string, childIDs: seq<string>, env: Env) returns (r: Result<(seq<string>, nat), Failure>)
      requires store.Valid()
      ensures r.Ok? ==> IsMatchedOrder(store.cells, parent, r.value.0) && Admits(cells, parent, childIDs, r.value.0, env)
      ensures r.Ok? ==> r.value.1 == PlayerTotal(cells, r.value.0)
      ensures r.Err? ==> forall order :: IsMatchedOrder(store.cells, parent, order) ==> !Admits(cells, parent, childIDs, order, env)
      ensures r != Err(GeometryInvalid)
    {
      hide IsMatchedOrder, PlayersAllow, Siblings.ValidMerge, AreValid;
      if |childIDs| != 4 {
        return Err(NeedFour);
      }
      var found := FindChildren(parent);
      if found.Err? {
        return Err(found.error);
      }
      var (kids, order) := found.value;
      OrderIsUnique(store.cells, parent, order);
      for i := 0 to 4
        invariant forall k :: 0 <= k < i ==> childIDs[k] in order
      {
        if childIDs[i] !in order {
          return Err(ChildMismatch(childIDs[i]));
        }
      }
      ValidIsFour(store.cells, parent, kids);
      var valid := Siblings.ValidateMergeChildren(store.cells[parent].bounds, store.cells[parent].level,
                                                  [Some(kids[0]), Some(kids[1]), Some(kids[2]), Some(kids[3])]);
      var players := CheckPlayers(parent, order, env);
      r := if !valid then Err(GeometryInvalid)
           else if players.Err? then Err(players.error)
           else Ok((order, players.value));
    }

    /** The whole call. `x` is the course it took, none when a guard refused it. */
    method ForwardMergeHandoff(parentCellID: string, childCellIDs: seq<string>, env: Env)
      returns (r: Result<Report, Failure>, ghost x: Option<Course>)
      requires store.Valid() && forall id <- cells :: 0 !in cells[id].world.alive
      modifies this
      ensures merging == old(merging)
      ensures x.None? ==> r.Err? && cells == old(cells)
      ensures TrimSpace(parentCellID) in old(merging) ==> x.None?
      ensures TrimSpace(parentCellID) in old(cells) && |old(cells)[TrimSpace(parentCellID)].playerByID| > 0 ==> x.None?
      ensures x.Some? ==> x.value.parent == TrimSpace(parentCellID) &&
                          IsMatchedOrder(store.cells, x.value.parent, x.value.order) &&
                          Admits(old(cells), x.value.parent, Unique(childCellIDs), x.value.order, env) &&
                          (forall id :: id in x.value.order <==> id in Unique(childCellIDs))
      // A refusal has one of these reasons, and each of them refuses.
      ensures x.None? <==> TrimSpace(parentCellID) == "" || TrimSpace(parentCellID) in old(merging) ||
                           forall order | IsMatchedOrder(store.cells, TrimSpace(parentCellID), order) ::
                             !Admits(old(cells), TrimSpace(parentCellID), Unique(childCellIDs), order, env)
      ensures x.Some? ==> Follows(old(cells), x.value, cells, env.clock, env.reach) &&
                          (r.Ok? <==> x.value.complete && env.saved) &&
                          (r.Ok? ==> r.value == Report(4, |MergedSave(x.value.parts).entities|, |x.value.todo|))
      // Nobody is lost or gained however it ends, and success moves everybody.
      ensures x.Some? && Ready(old(cells), x.value.parent, x.value.order, env.clock) ==>
                Kept(old(cells), cells, x.value.parent, x.value.order) &&
                (r.Ok? ==> Absorbed(old(cells), cells, x.value.parent, x.value.order) &&
                           r.value.npcCount == TotalSize(NpcMaps(old(cells), x.value.order)))
      // Left alone, it succeeds exactly when no listed player is in flight.
      ensures x.Some? && Ready(old(cells), x.value.parent, x.value.order, env.clock) &&
              (forall i: nat :: env.reach(i) == Handoff.Finished) && env.saved ==>
                (r.Ok? <==> NobodyInFlight(old(cells), x.value.todo, env.clock))
    {
      hide *;
      var parent := TrimSpace(parentCellID);
      TrimIsIdempotent(parentCellID);
      var childIDs := UniqueCellIDs(childCellIDs);
      x := None;
      if parent == "" {
        return Err(ParentRequired), x;
      }
      if parent in merging {
        return Err(AlreadyMerging), x;
      }
      merging := merging + {parent};
      var checked := CheckMerge(parent, childIDs, env);
      if checked.Err? {
        merging := merging - {parent};
        assert merging == old(merging);
        return Err(checked.error), x;
      }
      var (order, total) := checked.value;
      OpenAdmits(cells, parent, childIDs, order, env);
      MatchedOrder(store.cells, parent, order);
      UniqueMeans(childCellIDs);
      SameFour(childIDs, order);
      ghost var before := cells;
      DrainsOnly(cells, [parent] + order, true);
      SetSplitDrains([parent] + order, true);
      ghost var drained := cells;
      DrainedMembers(before, drained, parent, order);
      SameTotal(before, drained, order) by { DrainedMembers(before, drained, parent, order); }
      var result, parts, todo, complete := Transfer(parent, order, total, env);
      ghost var moved := cells;
      SetSplitDrains(order + [parent], false);
      merging := merging - {parent};
      assert merging == old(merging);
      r := result;
      x := Some(Course(parent, order, parts, todo, drained, Imported(drained, parent, parts), moved, complete));
      FollowsBy(before, x.value, cells, env.clock, env.reach);
      if Ready(before, parent, order, env.clock) {
        MergeTheorem(before, x.value, cells, env.clock, env.reach);
        CountIsTotal(before, x.value, cells, env.clock, env.reach);
      }
    }
  }

  lemma OpenAdmits(cells: Cells, parent: string, childIDs: seq<string>, order: seq<string>, env: Env)
    requires Admits(cells, parent, childIDs, order, env)
    ensures |childIDs| == 4 && (forall id <- childIDs :: id in order) && parent in cells && |cells[parent].playerByID| == 0
    ensures (forall id <- order :: id in cells) && (!env.handoffEnabled ==> PlayerTotal(cells, order) == 0)
  {
  }

  lemma MatchedOrder(catalog: Catalog.Cells, parent: string, order: seq<string>)
    requires IsMatchedOrder(catalog, parent, order)
    ensures |order| == 4 && AllDifferent(order) && forall id <- order :: TrimSpace(id) == id && id != ""
  {
    hide TrimSpace, Siblings.AreMatches, Catalog.IsListing;
    var list, kids: seq<Siblings.CellSpec> :| IsMatch(catalog, catalog[parent], list, kids, order);
    forall id <- order ensures TrimSpace(id) == id {
      var i :| 0 <= i < 4 && order[i] == id;
      TrimIsIdempotent(kids[i].id);
    }
  }

  /** Four different requested ids, all among the four children: the same ids. */
  lemma SameFour(a: seq<string>, b: seq<string>)
    requires |a| == |b| == 4 && (forall i, j :: 0 <= i < j < |a| ==> a[i] != a[j]) && forall id <- a :: id in b
    ensures forall id :: id in a <==> id in b
  {
    var sa, sb := set id <- a, set id <- b;
    assert sa == {a[0], a[1], a[2], a[3]} && |sa| == 4;
    assert sb == {b[0], b[1], b[2], b[3]} && |sb| <= 4;
    assert sa <= sb;
    SubsetFull(sa, sb);
    forall id ensures id in a <==> id in b {
      assert id in sa <==> id in sb;
    }
  }

  lemma SubsetFull(a: set<string>, b: set<string>)
    requires a <= b && |b| <= |a|
    ensures a == b
  {
    if x :| x in b && x !in a {
      assert a <= b - {x};
      SizeOfSubset(a, b - {x});
    }
  }

  lemma {:induction false} SizeOfSubset(a: set<string>, b: set<string>)
    requires a <= b
    ensures |a| <= |b|
    decreases a
  {
    if x :| x in a {
      SizeOfSubset(a - {x}, b - {x});
    }
  }

  lemma DrainedMembers(before: Cells, drained: Cells, parent: string, order: seq<string>)
    requires AllSameButDrain(before, drained) && parent in before && forall id <- order :: id in before
    requires forall id <- before :: 0 !in before[id].world.alive
    ensures drained.Keys == before.Keys && drained[parent].playerByID == before[parent].playerByID
    ensures forall id <- before :: 0 !in drained[id].world.alive && drained[id].playerByID == before[id].playerByID
  {
  }

  lemma FollowsBy(before: Cells, x: Course, after: Cells, clock: nat -> nat, reach: nat -> Handoff.Reach)
    requires x.drained == SetDrains(before, [x.parent] + x.order, true) && x.parent in before && x.drained.Keys == before.Keys
    requires |before[x.parent].playerByID| == 0 && AreExports(x.drained, x.order, x.parts)
    requires x.imported == Imported(x.drained, x.parent, x.parts) && ListingOf(x.todo, x.order, x.imported)
    requires (x.moved, x.complete) == Move(x.imported, x.parent, x.todo, clock, reach)
    requires after == SetDrains(x.moved, x.order + [x.parent], false)
    ensures Follows(before, x, after, clock, reach)
  {
    hide SetDrains, AreExports, Imported, ListingOf, Move;
  }

  /** The reported count is the number of saved entities of all children together. */
  lemma CountIsTotal(before: Cells, x: Course, after: Cells, clock: nat -> nat, reach: nat -> Handoff.Reach)
    requires Follows(before, x, after, clock, reach) && Ready(before, x.parent, x.order, clock)
    ensures forall id <- x.order :: id in before
    ensures |MergedSave(x.parts).entities| == TotalSize(NpcMaps(before, x.order))
  {
    hide Inv, SetDrains, Imported, ListingOf, Move, NpcsOf, Clean, UnusedTokens, TotalSize, IsExport, Roomy,
         PlayerTotal, AreExports, NpcMaps, MergedSave;
    DrainsOnly(before, [x.parent] + x.order, true);
    DrainMirrors(before, x.drained);
    forall id <- x.order ensures id in before {
      assert id in SetOf(x.order);
    }
    assert forall i :: 0 <= i < |x.order| ==> x.order[i] in x.order;
    SameNpcMaps(before, x.drained, x.order);
    PartsCount(x.drained, x.order, x.parts);
  }

  lemma PartsCount(cells: Cells, order: seq<string>, parts: seq<CellPersist>)
    requires AreExports(cells, order, parts)
    ensures |MergedSave(parts).entities| == TotalSize(NpcMaps(cells, order))
  {
    hide IsExport;
    var lists := seq(|parts|, i requires 0 <= i < |parts| => parts[i].entities);
    forall i | 0 <= i < |parts|
      ensures Meaning(lists[i]) == NpcMaps(cells, order)[i] && |lists[i]| == |NpcMaps(cells, order)[i]|
    {
      ExportMeans(cells[order[i]], parts[i]);
    }
    ConcatMeans(lists, NpcMaps(cells, order));
  }

  lemma ExportMeans(c: Cell, p: CellPersist)
    requires IsExport(c, p)
    ensures Meaning(p.entities) == NpcsOf(c.world, c.players) && |p.entities| == |NpcsOf(c.world, c.players)|
  {
  }

  /** The target has exactly the source's other entities, its tick and, when positive, its rate; its players' tables are untouched. */
  ghost predicate CopiedTo(source: Cell, was: Cell, target: Cell) {
    NpcsOf(target.world, {}) == NpcsOf(source.world, source.players) && target.world.alive == NpcsOf(source.world, source.players).Keys &&
    target.loop.tick == source.loop.tick && (source.loop.tps > 0.0 ==> target.loop == source.loop) &&
    target == was.(world := target.world, loop := target.loop)
  }

  lemma CopyMeans(source: Cell, was: Cell, save: CellPersist)
    requires Encodes(save, source.world, source.loop, source.players) && Import(was, save).1
    ensures CopiedTo(source, was, Import(was, save).0)
  {
    hide NpcsOf, Meaning;
    RoundTrip(source.world, source.loop, source.players, save, was.world, was.loop);
    hide DecodedWorld, DecodedLoop;
  }

  /** Copying a parent to its children and merging them back without a step in
      between gives the parent back what was copied. */
  lemma CopiesMergeIntoParent(source: Cell, before: Cells, after: Cells, parent: string, order: seq<string>)
    requires order != [] && parent in before && (forall id <- order :: id in before && before[id].players == {}) && after.Keys == before.Keys
    requires forall id <- order :: exists was :: CopiedTo(source, was, before[id])
    requires Absorbed(before, after, parent, order)
    ensures NpcsOf(after[parent].world, after[parent].players) == NpcsOf(source.world, source.players)
  {
    hide NpcsOf, LastWins;
    var maps := NpcMaps(before, order);
    forall i | 0 <= i < |maps| ensures maps[i] == NpcsOf(source.world, source.players) {
      assert order[i] in order;
    }
    CopiesMergeBack(maps, NpcsOf(source.world, source.players));
  }

  /** The ids of the four cells the catalogue search finds, in quadrant order. */
  ghost predicate IsMatchedOrder(catalog: Catalog.Cells, parent: string, order: seq<string>) {
    parent in catalog && catalog[parent].bounds.Some? &&
    exists list, kids :: IsMatch(catalog, catalog[parent], list, kids, order)
  }

  ghost predicate IsMatch(catalog: Catalog.Cells, spec: Siblings.CellSpec, list: seq<Option<Siblings.CellSpec>>,
                          kids: seq<Siblings.CellSpec>, order: seq<string>) {
    spec.bounds.Some? && Catalog.IsListing(list, catalog) &&
    Siblings.AreMatches(kids, spec.bounds.value, spec.level + 1, list) && Siblings.DistinctIDs(kids) &&
    |kids| == |order| == 4 && forall i :: 0 <= i < 4 ==> order[i] == Siblings.IDOf(kids[i])
  }

  /** The four cells pass the geometry check. */
  ghost predicate AreValid(catalog: Catalog.Cells, parent: string, kids: seq<Siblings.CellSpec>) {
    parent in catalog && |kids| == 4 &&
    Siblings.ValidMerge(catalog[parent].bounds, catalog[parent].level, [Some(kids[0]), Some(kids[1]), Some(kids[2]), Some(kids[3])])
  }

  lemma ValidIsFour(catalog: Catalog.Cells, parent: string, kids: seq<Siblings.CellSpec>)
    requires AreValid(catalog, parent, kids)
    ensures parent in catalog && |kids| == 4
    ensures Siblings.ValidMerge(catalog[parent].bounds, catalog[parent].level, [Some(kids[0]), Some(kids[1]), Some(kids[2]), Some(kids[3])])
  {
  }

  /** An empty, reachable parent, reachable children, and players only as far as configured. */
  predicate PlayersAllow(cells: Cells, parent: string, order: seq<string>, env: Env) {
    parent in cells && |cells[parent].playerByID| == 0 && (forall id <- order :: id in cells) &&
    (!env.handoffEnabled ==> PlayerTotal(cells, order) == 0) &&
    (env.handoffEnabled && env.maxPlayers > 0 ==> PlayerTotal(cells, order) <= env.maxPlayers)
  }

  /** The request names the four children and the players allow the merge. */
  predicate Admits(cells: Cells, parent: string, childIDs: seq<string>, order: seq<string>, env: Env) {
    |childIDs| == 4 && (forall id <- childIDs :: id in order) && PlayersAllow(cells, parent, order, env)
  }

  lemma {:induction false} TotalGrows(cells: Cells, order: seq<string>, n: nat)
    requires n <= |order|
    ensures PlayerTotal(cells, order[..n]) <= PlayerTotal(cells, order)
    decreases |order|
  {
    if n == |order| {
      assert order[..n] == order;
    } else {
      assert order[..|order| - 1][..n] == order[..n];
      TotalGrows(cells, order[..|order| - 1], n);
    }
  }

  lemma MatchIsOrder(catalog: Catalog.Cells, parent: string, list: seq<Option<Siblings.CellSpec>>,
                     kids: seq<Siblings.CellSpec>, order: seq<string>)
    requires parent in catalog && catalog[parent].bounds.Some? && Catalog.IsListing(list, catalog)
    requires Siblings.AreMatches(kids, catalog[parent].bounds.value, catalog[parent].level + 1, list) && |kids| == 4
    requires Siblings.Mergeable(catalog[parent].bounds.value, catalog[parent].level + 1, list)
    requires order == [Siblings.IDOf(kids[0]), Siblings.IDOf(kids[1]), Siblings.IDOf(kids[2]), Siblings.IDOf(kids[3])]
    ensures IsMatchedOrder(catalog, parent, order) && AreValid(catalog, parent, kids)
  {
    hide Siblings.AreMatches, Siblings.Mergeable, Catalog.IsListing, Siblings.IDOf, Siblings.ValidMerge;
    MatchesAreFour(kids, catalog[parent].bounds.value, catalog[parent].level + 1, list);
    assert IsMatch(catalog, catalog[parent], list, kids, order);
    Siblings.FoundChildrenAreValid(catalog[parent], list, kids, [Some(kids[0]), Some(kids[1]), Some(kids[2]), Some(kids[3])]);
  }

  /** Every listing of the catalogue holds the same fitting entries. */
  lemma SameFits(catalog: Catalog.Cells, a: seq<Option<Siblings.CellSpec>>, b: seq<Option<Siblings.CellSpec>>,
                 c: Option<Siblings.CellSpec>)
    requires Catalog.IsListing(a, catalog) && Catalog.IsListing(b, catalog) && c in a
    ensures c in b
  {
  }

  lemma FitsElsewhere(catalog: Catalog.Cells, a: seq<Option<Siblings.CellSpec>>,
                      b: seq<Option<Siblings.CellSpec>>, level: int, box: Bounds)
    requires Catalog.IsListing(a, catalog) && Catalog.IsListing(b, catalog) && Siblings.Unambiguous(a, level, box)
    ensures Siblings.Unambiguous(b, level, box)
    ensures forall i, j | 0 <= i < |a| && 0 <= j < |b| && Siblings.Fits(a[i], level, box) && Siblings.Fits(b[j], level, box) ::
              Siblings.IDOf(a[i].value) == Siblings.IDOf(b[j].value)
  {
    hide Siblings.IDOf, Siblings.Fits, Catalog.IsListing;
    forall j | 0 <= j < |b| && Siblings.Fits(b[j], level, box) ensures exists k :: 0 <= k < |a| && a[k] == b[j] {
      assert b[j] in b;
      SameFits(catalog, b, a, b[j]);
    }
    var i :| 0 <= i < |a| && Siblings.Fits(a[i], level, box);
    assert a[i] in a;
    SameFits(catalog, a, b, a[i]);
  }

  /** A matched order exists only for a bounded parent, and then every listing is mergeable. */
  lemma MatchedIsMergeable(catalog: Catalog.Cells, parent: string)
    ensures forall order, all | IsMatchedOrder(catalog, parent, order) && Catalog.IsListing(all, catalog) ::
              parent in catalog && catalog[parent].bounds.Some? &&
              Siblings.Mergeable(catalog[parent].bounds.value, catalog[parent].level + 1, all)
    ensures forall order :: IsMatchedOrder(catalog, parent, order) ==> parent in catalog && catalog[parent].bounds.Some?
  {
    forall order, all | IsMatchedOrder(catalog, parent, order) && Catalog.IsListing(all, catalog)
      ensures Siblings.Mergeable(catalog[parent].bounds.value, catalog[parent].level + 1, all)
    {
      MatchedListing(catalog, parent, order, all);
    }
  }

  lemma MatchedListing(catalog: Catalog.Cells, parent: string, order: seq<string>, all: seq<Option<Siblings.CellSpec>>)
    requires IsMatchedOrder(catalog, parent, order) && Catalog.IsListing(all, catalog)
    ensures parent in catalog && catalog[parent].bounds.Some?
    ensures Siblings.Mergeable(catalog[parent].bounds.value, catalog[parent].level + 1, all)
  {
    hide Siblings.AreMatches, Siblings.Mergeable, Siblings.DistinctIDs, Siblings.IDOf, Catalog.IsListing;
    var list, kids: seq<Siblings.CellSpec> :| IsMatch(catalog, catalog[parent], list, kids, order);
    Siblings.DistinctMatchesMerge(kids, catalog[parent].bounds.value, catalog[parent].level + 1, list);
    MergeableElsewhere(catalog, list, all, catalog[parent].bounds.value, catalog[parent].level + 1);
  }

  lemma MergeableElsewhere(catalog: Catalog.Cells, a: seq<Option<Siblings.CellSpec>>,
                           b: seq<Option<Siblings.CellSpec>>, box: Bounds, level: int)
    requires Catalog.IsListing(a, catalog) && Catalog.IsListing(b, catalog) && Siblings.Mergeable(box, level, a)
    ensures Siblings.Mergeable(box, level, b)
  {
    hide Siblings.IDOf, Siblings.Fits, SplitFour, Siblings.Unambiguous, Catalog.IsListing;
    forall q: CellPath.Quad ensures Siblings.Unambiguous(b, level, SplitFour(box)[q]) {
      FitsElsewhere(catalog, a, b, level, SplitFour(box)[q]);
    }
    forall j | 0 <= j < |b| ensures exists k :: 0 <= k < |a| && a[k] == b[j] {
      assert b[j] in b;
      SameFits(catalog, b, a, b[j]);
    }
  }

  /** The catalogue determines the order. */
  lemma OrderIsUnique(catalog: Catalog.Cells, parent: string, order: seq<string>)
    requires IsMatchedOrder(catalog, parent, order)
    ensures parent in catalog && forall other :: IsMatchedOrder(catalog, parent, other) ==> other == order
  {
    forall other | IsMatchedOrder(catalog, parent, other) ensures other == order {
      TwoOrders(catalog, parent, order, other);
    }
  }

  lemma TwoOrders(catalog: Catalog.Cells, parent: string, order: seq<string>, other: seq<string>)
    requires IsMatchedOrder(catalog, parent, order) && IsMatchedOrder(catalog, parent, other)
    ensures other == order
  {
    hide Siblings.IDOf, Siblings.Unambiguous, Siblings.Fits, Siblings.DistinctIDs, Catalog.IsListing, SplitFour;
    var spec := catalog[parent];
    var b, level := spec.bounds.value, spec.level + 1;
    var l1, k1: seq<Siblings.CellSpec> :| IsMatch(catalog, spec, l1, k1, order);
    var l2, k2: seq<Siblings.CellSpec> :| IsMatch(catalog, spec, l2, k2, other);
    forall q: CellPath.Quad ensures Siblings.IDOf(k1[q]) == Siblings.IDOf(k2[q]) {
      FitsElsewhere(catalog, l1, l2, level, SplitFour(b)[q]);
      var i :| 0 <= i < |l1| && l1[i] == Some(k1[q]);
      var j :| 0 <= j < |l2| && l2[j] == Some(k2[q]);
    }
  }

  lemma MatchesAreFour(kids: seq<Siblings.CellSpec>, b: Bounds, level: int, list: seq<Option<Siblings.CellSpec>>)
    requires Siblings.AreMatches(kids, b, level, list)
    ensures |kids| == 4
    ensures Siblings.Mergeable(b, level, list) ==> Siblings.DistinctIDs(kids)
  {
    Siblings.MergeableMatchesDistinct(kids, b, level, list);
  }

  /** The imported parent starts over at tick 0, at its own rate. */
  lemma MergeResetsTick(c: Cell, parts: seq<CellPersist>)
    ensures Import(c, MergedSave(parts)).0.loop == if |c.playerByID| == 0 then Loop(0, c.loop.tps) else c.loop
  {
    hide DecodedWorld;
  }

  lemma ImportAnswers(c: Cell, p: CellPersist)
    requires p.schema == SCHEMA_VERSION
    ensures Import(c, p).1 <==> |c.playerByID| == 0
    ensures !Import(c, p).1 ==> Import(c, p).0 == c
    ensures Import(c, p).0.playerByID == c.playerByID
  {
    hide DecodedWorld;
  }

  /** Nobody to hand over: the empty list is the full listing. */
  lemma NobodyToList(cells: Cells, order: seq<string>, total: nat)
    requires total == PlayerTotal(cells, order)
    ensures total == 0 ==> ListingOf([], order, cells)
  {
    if total == 0 {
      NoPlayers(cells, order);
      assert forall id <- SetOf(order) :: id in order;
    }
  }

  lemma {:induction false} NoPlayers(cells: Cells, order: seq<string>)
    requires PlayerTotal(cells, order) == 0
    ensures forall id <- order :: id in cells ==> cells[id].playerByID == map[]
  {
    if order != [] {
      NoPlayers(cells, order[..|order| - 1]);
      assert order == order[..|order| - 1] + [order[|order| - 1]];
    }
  }

  lemma ListOneMore(todo: seq<Candidate>, order: seq<string>, i: nat, more: seq<Candidate>, cells: Cells)
    requires i < |order| && AllDifferent(order) && ListingOf(todo, order[..i], cells) && order[i] in cells
    requires forall c <- more :: c.child == order[i]
    requires Inv(cells[order[i]]) && Clean(cells[order[i]]) ==>
               ((forall p :: Candidate(order[i], p) in more <==> p in cells[order[i]].playerByID) &&
                |more| == |cells[order[i]].playerByID| && AllDifferent(more))
    ensures ListingOf(todo + more, order[..i + 1], cells)
  {
    hide Inv, Clean, FullListing, AllDifferent;
    assert order[..i + 1] == order[..i] + [order[i]];
    if forall id <- order[..i + 1] :: id in cells && Inv(cells[id]) && Clean(cells[id]) {
      assert forall id <- order[..i] :: id in order[..i + 1];
      assert order[i] in order[..i + 1];
      FullOneMore(todo, order, i, more, cells);
    }
  }

  lemma FullOneMore(todo: seq<Candidate>, order: seq<string>, i: nat, more: seq<Candidate>, cells: Cells)
    requires i < |order| && AllDifferent(order) && FullListing(todo, order[..i], cells) && order[i] in cells
    requires (forall c <- todo :: c.child in order[..i]) && (forall c <- more :: c.child == order[i])
    requires |more| == |cells[order[i]].playerByID| && AllDifferent(more)
    requires forall p :: Candidate(order[i], p) in more <==> p in cells[order[i]].playerByID
    ensures FullListing(todo + more, order[..i + 1], cells)
  {
    assert order[i] !in order[..i];
    DifferentTogether(todo, more);
    hide AllDifferent;
    assert order[..i + 1][..i] == order[..i];
    forall c <- more ensures c.player in cells[c.child].playerByID {
      assert c == Candidate(order[i], c.player);
    }
    forall id <- SetOf(order[..i + 1]), p | id in cells && p in cells[id].playerByID ensures Candidate(id, p) in todo + more {
      if id in order[..i] {
        assert id in SetOf(order[..i]);
        assert Candidate(id, p) in todo;
      } else {
        assert Candidate(id, p) in more;
      }
    }
  }

  lemma DifferentTogether(a: seq<Candidate>, b: seq<Candidate>)
    requires AllDifferent(a) && AllDifferent(b) && forall c <- a, d <- b :: c.child != d.child
    ensures AllDifferent(a + b)
  {
    assert forall i :: 0 <= i < |a| ==> a[i] in a;
    assert forall i :: 0 <= i < |b| ==> b[i] in b;
  }

  /** A handoff that does not complete ends the sequence. */
  lemma {:induction false} FailedFrom(cells: Cells, parent: string, todo: seq<Candidate>, clock: nat -> nat,
                                      reach: nat -> Handoff.Reach, i: nat)
    requires i < |todo| && !Move(cells, parent, todo[..i + 1], clock, reach).1
    ensures Move(cells, parent, todo, clock, reach) == Move(cells, parent, todo[..i + 1], clock, reach)
    decreases |todo|
  {
    hide MoveOne;
    if i + 1 < |todo| {
      var front := todo[..|todo| - 1];
      assert front[..i + 1] == todo[..i + 1];
      FailedFrom(cells, parent, front, clock, reach, i);
    } else {
      assert todo[..i + 1] == todo;
    }
  }
}
