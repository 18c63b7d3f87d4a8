/** Why each clause of `Careful` and `Exclusive` is there: for every clause a run
    of the real servers that keeps all the other clauses and loses a player, or
    lets one act in two cells. */
module ProtocolLimits {
  import opened Protocol
  import opened ProtocolWeakest
  import Cluster
  import CellState
  import Ecs

  datatype Kind = Joins | Prepares | Accepts

  predicate Is(op: Op, k: Kind) {
    (k.Joins? && op.Join?) || (k.Prepares? && op.Prepare?) || (k.Accepts? && op.Accept?)
  }

  /** Careful in every call but those of one kind. */
  predicate CarefulBut(v: View, ops: seq<Op>, k: Kind)
    decreases |ops|
  {
    ops != [] ==> (Is(ops[0], k) || Careful(v, ops[0])) && CarefulBut(Step(v, ops[0]), ops[1..], k)
  }

  /** Careful throughout, and exclusive in every call but those of one kind. */
  predicate ExclusiveBut(v: View, ops: seq<Op>, k: Kind)
    decreases |ops|
  {
    ops != [] ==>
      Careful(v, ops[0]) && (Is(ops[0], k) || Exclusive(v, ops[0])) && ExclusiveBut(Step(v, ops[0]), ops[1..], k)
  }

  predicate Lost(v: View, p: string) {
    p in v.present && !Registered(v, p)
  }

  predicate ActiveTwice(v: View, p: string) {
    Active(v, "a", p) && Active(v, "b", p)
  }

  // ---------------------------------------------------------------- runs written back to front

  lemma Before(v: View, op: Op, w: View, rest: seq<Op>, k: Kind)
    requires Step(v, op) == w && CarefulBut(w, rest, k) && (Is(op, k) || Careful(v, op))
    ensures CarefulBut(v, [op] + rest, k) && Run(v, [op] + rest) == Run(w, rest)
  {
    assert ([op] + rest)[1..] == rest;
  }

  lemma BeforeExclusive(v: View, op: Op, w: View, rest: seq<Op>, k: Kind)
    requires Step(v, op) == w && ExclusiveBut(w, rest, k) && Careful(v, op) && (Is(op, k) || Exclusive(v, op))
    ensures ExclusiveBut(v, [op] + rest, k) && Run(v, [op] + rest) == Run(w, rest)
  {
    assert ([op] + rest)[1..] == rest;
  }

  // ---------------------------------------------------------------- single steps

  const NONE := CellView({}, map[], {}, false)

  const AB := View(map["a" := NONE, "b" := NONE], map[], 1, {})

  /** A Prepare of a registered player without open record, at a cell with nothing to prune. */
  lemma OpensFresh(v: View, tok: string, d: DriveView, c: CellView)
    requires Knows(v, tok) && v.drives[tok] == d && v.cells[d.src] == c
    requires tok !in c.records && d.player in c.here && !InFlight(c, d.player)
    requires forall k <- c.records :: !Expired(c.records[k], v.now, LIMIT)
    ensures Step(v, Prepare(tok)) == With(v, d.src, c.(records := c.records[tok := Record(d.player, false, v.now)])).(
              drives := v.drives[tok := d.(prepared := true)])
  {
    assert PruneCell(c, v.now, LIMIT) == c;
  }

  lemma Arrives(v: View, tok: string, d: DriveView, c: CellView)
    requires Knows(v, tok) && v.drives[tok] == d && v.cells[d.dst] == c && d.prepared && tok !in c.arrived
    ensures Step(v, Accept(tok)) == With(v, d.dst, c.(here := c.here + {d.player}, arrived := c.arrived + {tok})).(
              drives := v.drives[tok := d.(accepted := true)])
  {
  }

  lemma Closes(v: View, tok: string, d: DriveView, c: CellView)
    requires Knows(v, tok) && v.drives[tok] == d && v.cells[d.src] == c && d.accepted && OpenFor(c, tok, d.player)
    ensures Step(v, Finalize(tok)) ==
            With(v, d.src, c.(here := c.here - {d.player}, records := c.records[tok := c.records[tok].(finalized := true)]))
  {
  }

  // ---------------------------------------------------------------- the common first part

  const OPEN := Record("p", false, 1)

  function T(prepared: bool, accepted: bool): DriveView {
    DriveView("p", "a", "b", prepared, accepted)
  }

  const HOLDS := NONE.(here := {"p"})

  /** "p" joined "a"; drive "t" towards "b" is started, prepared, accepted. */
  const JOINED := With(AB, "a", HOLDS).(present := {"p"})
  const STARTED := JOINED.(drives := map["t" := T(false, false)])
  const PREPARED := With(STARTED, "a", HOLDS.(records := map["t" := OPEN])).(drives := map["t" := T(true, false)])
  const TAKEN := With(PREPARED, "b", HOLDS.(arrived := {"t"})).(drives := map["t" := T(true, true)])

  lemma CommonSteps()
    ensures Step(AB, Join("a", "p")) == JOINED
    ensures Step(JOINED, Start("t", "p", "a", "b")) == STARTED
    ensures Step(STARTED, Prepare("t")) == PREPARED
    ensures Step(PREPARED, Accept("t")) == TAKEN
    ensures !Taken(STARTED, "t") && !Taken(PREPARED, "t") && Taken(TAKEN, "t")
  {
    assert JoinCell(NONE, "p") == HOLDS;
    assert {} + {"p"} == {"p"};
    OpensFresh(STARTED, "t", T(false, false), HOLDS);
    assert STARTED.drives["t" := T(true, false)] == map["t" := T(true, false)];
    Arrives(PREPARED, "t", T(true, false), NONE);
    assert {} + {"t"} == {"t"} && {} + {"p"} == {"p"};
    assert PREPARED.drives["t" := T(true, true)] == map["t" := T(true, true)];
  }

  lemma Common(rest: seq<Op>, k: Kind)
    requires CarefulBut(TAKEN, rest, k)
    ensures exists ops :: |ops| == |rest| + 4 && CarefulBut(AB, ops, k) && Run(AB, ops) == Run(TAKEN, rest)
  {
    CommonSteps();
    assert !InFlight(PREPARED.cells["b"], "p");
    var r3 := [Accept("t")] + rest;
    Before(PREPARED, Accept("t"), TAKEN, rest, k);
    var r2 := [Prepare("t")] + r3;
    Before(STARTED, Prepare("t"), PREPARED, r3, k);
    var r1 := [Start("t", "p", "a", "b")] + r2;
    Before(JOINED, Start("t", "p", "a", "b"), STARTED, r2, k);
    Before(AB, Join("a", "p"), JOINED, r1, k);
  }

  // ---------------------------------------------------------------- losing a player

  /** The player left through the target and rejoined at the source, which answers
      "already joined"; the late Finalize then removes them. */
  lemma JoinClauseNeeded()
    ensures exists ops, p :: |ops| <= 20 && CarefulBut(AB, ops, Joins) && Lost(Run(AB, ops), p)
  {
    CommonSteps();
    var a := TAKEN.cells["a"];
    var s1 := With(TAKEN, "b", NONE.(arrived := {"t"})).(present := {});
    assert Step(TAKEN, Leave("b", "p")) == s1 by {
      assert LeaveCell(TAKEN.cells["b"], "p") == NONE.(arrived := {"t"});
      assert {"p"} - {"p"} == {};
    }
    var s2 := With(s1, "a", a).(present := {"p"});
    assert Step(s1, Join("a", "p")) == s2 by {
      assert JoinCell(a, "p") == a;
      assert {} + {"p"} == {"p"};
    }
    Closes(s2, "t", T(true, true), a);
    var s3 := Step(s2, Finalize("t"));
    Before(s2, Finalize("t"), s3, [], Joins);
    var r2 := [Finalize("t")] + [];
    Before(s1, Join("a", "p"), s2, r2, Joins);
    var r1 := [Join("a", "p")] + r2;
    Before(TAKEN, Leave("b", "p"), s1, r1, Joins);
    Common([Leave("b", "p")] + r1, Joins);
    assert Lost(s3, "p");
  }

  function U(prepared: bool, accepted: bool): DriveView {
    DriveView("p", "b", "a", prepared, accepted)
  }

  /** Drive "u" hands "p" from "b", where they were last, back to "a". */
  lemma Back(v: View, a: CellView, b: CellView)
    requires v.cells == TAKEN.cells["a" := a]["b" := b] && "u" in v.drives && v.drives["u"] == U(false, false)
    requires b == HOLDS.(arrived := {"t"}) && "u" !in a.arrived
    ensures var s1 := With(v, "b", b.(records := map["u" := Record("p", false, v.now)])).(
                        drives := v.drives["u" := U(true, false)]);
            var s2 := With(s1, "a", a.(here := a.here + {"p"}, arrived := a.arrived + {"u"})).(
                        drives := s1.drives["u" := U(true, true)]);
            Step(v, Prepare("u")) == s1 && Step(s1, Accept("u")) == s2
  {
    OpensFresh(v, "u", U(false, false), b);
    var s1 := Step(v, Prepare("u"));
    assert map[]["u" := Record("p", false, v.now)] == map["u" := Record("p", false, v.now)];
    Arrives(s1, "u", U(true, false), a);
  }

  /** The target hands the player back to a source that still holds its own open
      record; both Finalizes then remove them. */
  lemma AcceptClauseNeeded()
    ensures exists ops, p :: |ops| <= 20 && CarefulBut(AB, ops, Accepts) && Lost(Run(AB, ops), p)
  {
    CommonSteps();
    var a, b := TAKEN.cells["a"], TAKEN.cells["b"];
    var s1 := TAKEN.(drives := TAKEN.drives["u" := U(false, false)]);
    assert Step(TAKEN, Start("u", "p", "b", "a")) == s1;
    Back(s1, a, b);
    var s2 := Step(s1, Prepare("u"));
    var s3 := Step(s2, Accept("u"));
    Closes(s3, "t", T(true, true), s3.cells["a"]);
    var s4 := Step(s3, Finalize("t"));
    Closes(s4, "u", U(true, true), s4.cells["b"]);
    var s5 := Step(s4, Finalize("u"));
    assert Lost(s5, "p");
    assert !Taken(s1, "u");
    var r5: seq<Op> := [];
    Before(s4, Finalize("u"), s5, r5, Accepts);
    var r4 := [Finalize("u")] + r5;
    Before(s3, Finalize("t"), s4, r4, Accepts);
    var r3 := [Finalize("t")] + r4;
    Before(s2, Accept("u"), s3, r3, Accepts);
    var r2 := [Accept("u")] + r3;
    Before(s1, Prepare("u"), s2, r2, Accepts);
    var r1 := [Prepare("u")] + r2;
    Before(TAKEN, Start("u", "p", "b", "a"), s1, r1, Accepts);
    Common([Start("u", "p", "b", "a")] + r1, Accepts);
  }

  const LATE: nat := LIMIT + 2
  const Q := DriveView("q", "a", "b", false, false)

  /** After the limit, a Prepare of an unknown player at "a" only prunes the stalled handoff. */
  const STALLED := TAKEN.(now := LATE, drives := TAKEN.drives["q" := Q])
  const PRUNED := With(STALLED, "a", HOLDS).(drives := STALLED.drives["q" := Q])

  lemma Stalls()
    ensures Step(TAKEN, Wait(LIMIT + 1)) == TAKEN.(now := LATE)
    ensures Step(TAKEN.(now := LATE), Start("q", "q", "a", "b")) == STALLED
    ensures Step(STALLED, Prepare("q")) == PRUNED
    ensures !Taken(STALLED, "q")
  {
    CommonSteps();
    var a := STALLED.cells["a"];
    assert Expired(OPEN, LATE, LIMIT);
    assert PruneCell(a, LATE, LIMIT) == HOLDS;
  }

  /** The source prunes the stalled handoff, the target hands the player back, and
      the old token is prepared afresh: its Accept is answered "already accepted"
      and its Finalize removes the player. */
  lemma PrepareClauseNeeded()
    ensures exists ops, p :: |ops| <= 20 && CarefulBut(AB, ops, Prepares) && Lost(Run(AB, ops), p)
  {
    Stalls();
    var b := TAKEN.cells["b"];
    var s4 := PRUNED.(drives := PRUNED.drives["u" := U(false, false)]);
    assert Step(PRUNED, Start("u", "p", "b", "a")) == s4;
    Back(s4, HOLDS, b);
    var s5 := Step(s4, Prepare("u"));
    var s6 := Step(s5, Accept("u"));
    Closes(s6, "u", U(true, true), s6.cells["b"]);
    var s7 := Step(s6, Finalize("u"));
    OpensFresh(s7, "t", T(true, true), s7.cells["a"]);
    var s8 := Step(s7, Prepare("t"));
    Closes(s8, "t", T(true, true), s8.cells["a"]);
    var s9 := Step(s8, Finalize("t"));
    assert Lost(s9, "p");
    assert !Taken(s4, "u") && !InFlight(HOLDS, "p") && s5.cells["a"] == HOLDS;
    hide Step, Run, Lost;
    var r9: seq<Op> := [];
    Before(s8, Finalize("t"), s9, r9, Prepares);
    var r8 := [Finalize("t")] + r9;
    Before(s7, Prepare("t"), s8, r8, Prepares);
    var r7 := [Prepare("t")] + r8;
    Before(s6, Finalize("u"), s7, r7, Prepares);
    var r6 := [Finalize("u")] + r7;
    Before(s5, Accept("u"), s6, r6, Prepares);
    var r5 := [Accept("u")] + r6;
    Before(s4, Prepare("u"), s5, r5, Prepares);
    var r4 := [Prepare("u")] + r5;
    Before(PRUNED, Start("u", "p", "b", "a"), s4, r4, Prepares);
    var r3 := [Start("u", "p", "b", "a")] + r4;
    Before(STALLED, Prepare("q"), PRUNED, r3, Prepares);
    var r2 := [Prepare("q")] + r3;
    Before(TAKEN.(now := LATE), Start("q", "q", "a", "b"), STALLED, r2, Prepares);
    var r1 := [Start("q", "q", "a", "b")] + r2;
    Before(TAKEN, Wait(LIMIT + 1), TAKEN.(now := LATE), r1, Prepares);
    Common([Wait(LIMIT + 1)] + r1, Prepares);
  }

  // ---------------------------------------------------------------- acting in two cells

  /** A second join elsewhere is simply another copy of the player. */
  lemma SecondJoinActsTwice()
    ensures exists ops, p :: |ops| <= 20 && ExclusiveBut(AB, ops, Joins) && ActiveTwice(Run(AB, ops), p)
  {
    CommonSteps();
    var twice := With(JOINED, "b", HOLDS).(present := {"p"} + {"p"});
    assert JoinCell(NONE, "p") == HOLDS;
    assert Step(JOINED, Join("b", "p")) == twice;
    BeforeExclusive(JOINED, Join("b", "p"), twice, [], Joins);
    var r1 := [Join("b", "p")] + [];
    BeforeExclusive(AB, Join("a", "p"), JOINED, r1, Joins);
    assert ActiveTwice(twice, "p");
  }

  lemma UpToPrepared(rest: seq<Op>, k: Kind)
    requires ExclusiveBut(PREPARED, rest, k)
    ensures exists ops :: |ops| == |rest| + 3 && ExclusiveBut(AB, ops, k) && Run(AB, ops) == Run(PREPARED, rest)
  {
    CommonSteps();
    var r2 := [Prepare("t")] + rest;
    BeforeExclusive(STARTED, Prepare("t"), PREPARED, rest, k);
    var r1 := [Start("t", "p", "a", "b")] + r2;
    BeforeExclusive(JOINED, Start("t", "p", "a", "b"), STARTED, r2, k);
    BeforeExclusive(AB, Join("a", "p"), JOINED, r1, k);
  }

  /** Any Prepare at the source after the limit unfreezes the player the target already has. */
  lemma StalePrepareActsTwice()
    ensures exists ops, p :: |ops| <= 20 && ExclusiveBut(AB, ops, Prepares) && ActiveTwice(Run(AB, ops), p)
  {
    CommonSteps();
    Stalls();
    assert ActiveTwice(PRUNED, "p");
    assert !InFlight(PREPARED.cells["b"], "p");
    var r4: seq<Op> := [];
    BeforeExclusive(STALLED, Prepare("q"), PRUNED, r4, Prepares);
    var r3 := [Prepare("q")] + r4;
    BeforeExclusive(TAKEN.(now := LATE), Start("q", "q", "a", "b"), STALLED, r3, Prepares);
    var r2 := [Start("q", "q", "a", "b")] + r3;
    BeforeExclusive(TAKEN, Wait(LIMIT + 1), TAKEN.(now := LATE), r2, Prepares);
    var r1 := [Wait(LIMIT + 1)] + r2;
    BeforeExclusive(PREPARED, Accept("t"), TAKEN, r1, Prepares);
    UpToPrepared([Accept("t")] + r1, Prepares);
  }

  /** The player leaves and rejoins the source while the handoff is under way; its late Accept adds a copy. */
  lemma LateAcceptActsTwice()
    ensures exists ops, p :: |ops| <= 20 && ExclusiveBut(AB, ops, Accepts) && ActiveTwice(Run(AB, ops), p)
  {
    CommonSteps();
    var s1 := With(PREPARED, "a", NONE).(present := {});
    assert Step(PREPARED, Leave("a", "p")) == s1 by {
      assert LeaveCell(PREPARED.cells["a"], "p") == NONE;
      assert {"p"} - {"p"} == {};
    }
    var s2 := With(s1, "a", HOLDS).(present := {"p"});
    assert Step(s1, Join("a", "p")) == s2 by {
      assert JoinCell(NONE, "p") == HOLDS;
      assert {} + {"p"} == {"p"};
    }
    Arrives(s2, "t", T(true, false), NONE);
    var s3 := Step(s2, Accept("t"));
    assert ActiveTwice(s3, "p");
    var r3: seq<Op> := [];
    BeforeExclusive(s2, Accept("t"), s3, r3, Accepts);
    var r2 := [Accept("t")] + r3;
    BeforeExclusive(s1, Join("a", "p"), s2, r2, Accepts);
    var r1 := [Join("a", "p")] + r2;
    BeforeExclusive(PREPARED, Leave("a", "p"), s1, r1, Accepts);
    UpToPrepared([Leave("a", "p")] + r1, Accepts);
  }

  // ---------------------------------------------------------------- the servers do all of this

  /** Every cell has more ids left than there are calls to come. */
  predicate IdsLast(s: Cluster.System, n: nat) {
    forall id <- s.cells :: s.cells[id].world.nextID + n < Ecs.ID_SPACE
  }

  lemma StepUsesOneId(s: Cluster.System, op: Op, n: nat)
    requires IdsLast(s, n + 1)
    ensures Cluster.Roomy(s, Cluster.Handoff(op)) && IdsLast(Cluster.Step(s, Cluster.Handoff(op)), n)
  {
    var t := Cluster.Step(s, Cluster.Handoff(op));
    forall id | id in t.cells ensures t.cells[id].world.nextID + n < Ecs.ID_SPACE {
      CallUsesOneId(s, op, id);
    }
  }

  lemma CallUsesOneId(s: Cluster.System, op: Op, id: string)
    ensures id in Cluster.StepHandoff(s, op).cells ==>
              id in s.cells && Cluster.StepHandoff(s, op).cells[id].world.nextID <= s.cells[id].world.nextID + 1
  {
    hide CellState.Prepare, CellState.Prune;
    if op.Prepare? && Cluster.Knows(s, op.token) {
      var d := s.drives[op.token];
      PrepareUsesNoId(s.cells[d.src], d.player, d.dst, op.token, s.now);
    }
  }

  lemma PrepareUsesNoId(c: CellState.Cell, p: string, target: string, tok: string, now: nat)
    ensures CellState.Prepare(c, p, target, tok, now).0.world.nextID == c.world.nextID
  {
  }

  /** Handoff calls can be made as long as there are ids to hand out. */
  lemma {:induction false} ShortRunsAreRoomy(s: Cluster.System, ops: seq<Op>)
    requires IdsLast(s, |ops|)
    ensures Cluster.RoomyRun(s, Cluster.Calls(ops))
    decreases |ops|
  {
    hide Cluster.Step, Cluster.Roomy, IdsLast;
    if ops != [] {
      StepUsesOneId(s, ops[0], |ops| - 1);
      ShortRunsAreRoomy(Cluster.Step(s, Cluster.Handoff(ops[0])), ops[1..]);
      assert Cluster.Calls(ops)[0] == Cluster.Handoff(ops[0]) && Cluster.Calls(ops)[1..] == Cluster.Calls(ops[1..]);
    }
  }

  function TwoServers(): Cluster.System {
    Cluster.System(map["a" := CellState.EmptyCell("a"), "b" := CellState.EmptyCell("b")], map[], 1, {})
  }

  lemma TwoEmptyServers(n: nat)
    requires n < Ecs.ID_SPACE
    ensures Cluster.Initial(TwoServers()) && Cluster.SystemInv(TwoServers()) && Cluster.View(TwoServers()) == AB && IdsLast(TwoServers(), n)
  {
    EmptyServersView();
    EmptyServersIds(n);
    InitialServers();
    hide *;
    Cluster.InitialIsInitial(TwoServers());
  }

  lemma EmptyServersView()
    ensures Cluster.View(TwoServers()) == AB
  {
    EmptyServerView("a");
    EmptyServerView("b");
    hide Cluster.CellView, CellState.EmptyCell;
    assert Cluster.View(TwoServers()).cells == AB.cells;
    assert Cluster.View(TwoServers()).drives == AB.drives;
  }

  lemma EmptyServersIds(n: nat)
    requires n < Ecs.ID_SPACE
    ensures IdsLast(TwoServers(), n)
  {
    EmptyServerView("a");
    EmptyServerView("b");
    hide Cluster.CellView, CellState.EmptyCell;
  }

  lemma EmptyServerView(id: string)
    ensures Cluster.CellView(CellState.EmptyCell(id)) == NONE && CellState.EmptyCell(id).world.nextID == 0
  {
  }

  lemma InitialServers()
    ensures Cluster.Initial(TwoServers())
  {
  }

  lemma FollowersLoseAlike(t: Cluster.System, p: string)
    ensures Lost(Cluster.View(t), p) ==> p in t.present && forall id <- t.cells :: p !in t.cells[id].playerByID
    ensures ActiveTwice(Cluster.View(t), p) <==>
              ProtocolWeakest.Active(Cluster.View(t), "a", p) && ProtocolWeakest.Active(Cluster.View(t), "b", p)
  {
    Cluster.RegisteredInView(t, p);
  }

  /** Two empty servers follow any short protocol run exactly, so each run above
      is one of theirs: the player is then registered in no server, or free to act in two. */
  lemma ServersFollow(ops: seq<Op>, p: string)
    requires |ops| < Ecs.ID_SPACE
    ensures var s := TwoServers();
            var t := Cluster.Run(s, Cluster.Calls(ops));
            Cluster.Initial(s) && Cluster.View(t) == Run(AB, ops) &&
            (Lost(Run(AB, ops), p) ==> p in t.present && forall id <- t.cells :: p !in t.cells[id].playerByID) &&
            (ActiveTwice(Run(AB, ops), p) ==> Cluster.AcceptsInput(t, "a", p) && Cluster.AcceptsInput(t, "b", p))
  {
    hide *;
    var s := TwoServers();
    TwoEmptyServers(|ops|);
    ShortRunsAreRoomy(s, ops);
    Cluster.RunRefines(s, Cluster.Calls(ops));
    Cluster.OpsOfCalls(ops);
    var t := Cluster.Run(s, Cluster.Calls(ops));
    FollowersLoseAlike(t, p);
    Cluster.ActiveInView(t, "a", p);
    Cluster.ActiveInView(t, "b", p);
  }
}
