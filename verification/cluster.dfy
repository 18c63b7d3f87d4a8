/** Any number of cell servers and handoff drivers, one call at a time, and the
    proof that they refine the bare protocol. */
module Cluster {
  import opened Text
  import opened Ecs
  import opened CellState
  import opened CellInvariant
  import Persist
  import Protocol
  import ProtocolWeakest

  /** One handoff drive: `payload` is the answer of its Prepare, `accepted`
      an affirmative answer of its Accept. */
  datatype Drive = Drive(player: string, src: string, dst: string, payload: Option<Payload>, accepted: bool)

  datatype System = System(cells: map<string, Cell>, drives: map<string, Drive>, now: nat, present: set<string>)

  /** The protocol's calls, and those that only concern one cell's world. */
  datatype Call =
    | Handoff(op: Protocol.Op)
    | Input(cell: string, player: string, velocity: Velocity)
    | Simulate(cell: string)
    | ImportNpcs(cell: string, persist: Persist.CellPersist)

  // ---------------------------------------------------------------- one step

  /** The payload as the driver forwards it: addressed by the driver itself. */
  function Forwarded(d: Drive, tok: string): Payload
    requires d.payload.Some?
  {
    d.payload.value.(source := d.src, target := d.dst, token := tok)
  }

  function With(s: System, id: string, c: Cell): System {
    s.(cells := s.cells[id := c])
  }

  predicate Knows(s: System, tok: string) {
    tok in s.drives && s.drives[tok].src in s.cells && s.drives[tok].dst in s.cells
  }

  function Step(s: System, call: Call): System {
    match call
    case Handoff(op) => StepHandoff(s, op)
    case Input(id, p, v) => if id !in s.cells then s else With(s, id, ApplyInput(s.cells[id], p, v).0)
    case Simulate(id) => if id in s.cells && s.cells[id].loop.tps > 0.0 then With(s, id, Tick(s.cells[id])) else s
    case ImportNpcs(id, p) => if id !in s.cells then s else With(s, id, Persist.Import(s.cells[id], p).0)
  }

  function StepHandoff(s: System, op: Protocol.Op): System {
    match op
    case Join(id, p) =>
      if id !in s.cells then s
      else
        var (c, reply) := Join(s.cells[id], p);
        With(s, id, c).(present := if reply.ok then s.present + {p} else s.present)
    case Leave(id, p) =>
      if id !in s.cells then s else With(s, id, Leave(s.cells[id], p).0).(present :=
             if Protocol.AnswersElsewhere(View(s), id, p) then s.present else s.present - {p})
    case Drain(id, on) => if id !in s.cells then s else With(s, id, s.cells[id].(drain := on))
    case Start(tok, p, src, dst) =>
      if tok != "" && tok !in s.drives && p != "" && src in s.cells && dst in s.cells && src != dst && dst != ""
      then s.(drives := s.drives[tok := Drive(p, src, dst, None, false)]) else s
    case Prepare(tok) =>
      if !Knows(s, tok) then s
      else
        var d := s.drives[tok];
        var (c, reply) := Prepare(s.cells[d.src], d.player, d.dst, tok, s.now);
        With(s, d.src, c).(drives := s.drives[tok := if reply.ok && reply.payload.Some? then d.(payload := reply.payload) else d])
    case Accept(tok) =>
      if !Knows(s, tok) || s.drives[tok].payload.None? then s
      else
        var d := s.drives[tok];
        var (c, reply) := Accept(s.cells[d.dst], Forwarded(d, tok));
        With(s, d.dst, c).(drives := s.drives[tok := if reply.ok && reply.entity != 0 then d.(accepted := true) else d])
    case Finalize(tok) =>
      if !Knows(s, tok) || !s.drives[tok].accepted then s
      else
        var d := s.drives[tok];
        With(s, d.src, Finalize(s.cells[d.src], d.player, tok).0)
    case Wait(n) => s.(now := s.now + n)
    case Skip => s
  }

  function Run(s: System, calls: seq<Call>): System
    decreases |calls|
  {
    if calls == [] then s else Run(Step(s, calls[0]), calls[1..])
  }

  /** Cells may start with any non-player entities, no players and no handoffs. */
  ghost predicate Initial(s: System) {
    s.drives == map[] && s.present == {} && s.now > 0 &&
    forall id <- s.cells ::
      var c := s.cells[id];
      c.world.IdsBelowCounter() && c.players == {} && c.playerByID == map[] && c.frozen == {} &&
      c.preparedByID == map[] && c.preparedByTk == map[] && c.acceptedByTk == map[]
  }

  /** The entity counter of the cell a call may create an entity in has an id left. */
  predicate Roomy(s: System, call: Call) {
    match call
    case Handoff(Join(id, p)) =>
      id in s.cells ==> p in s.cells[id].playerByID || s.cells[id].world.HasRoom()
    case Handoff(Accept(tok)) =>
      Knows(s, tok) ==>
        var c := s.cells[s.drives[tok].dst];
        tok in c.acceptedByTk || s.drives[tok].player in c.playerByID || c.world.HasRoom()
    case ImportNpcs(_, p) => Persist.IdsFit(p.entities)
    case _ => true
  }

  // ---------------------------------------------------------------- the view

  function RecordView(r: Prepared): Protocol.Record {
    Protocol.Record(r.playerID, r.finalized, r.createdAt)
  }

  function RecordsView(records: map<string, Prepared>): map<string, Protocol.Record> {
    map tok <- records :: RecordView(records[tok])
  }

  lemma RecordsUpdated(records: map<string, Prepared>, tok: string, r: Prepared)
    ensures RecordsView(records[tok := r]) == RecordsView(records)[tok := RecordView(r)]
  {
  }

  function CellView(c: Cell): Protocol.CellView {
    Protocol.CellView(c.playerByID.Keys, RecordsView(c.preparedByTk), c.acceptedByTk.Keys, c.drain)
  }

  function DriveView(d: Drive): Protocol.DriveView {
    Protocol.DriveView(d.player, d.src, d.dst, d.payload.Some?, d.accepted)
  }

  function View(s: System): Protocol.View {
    Protocol.View(map id <- s.cells :: CellView(s.cells[id]), map tok <- s.drives :: DriveView(s.drives[tok]),
                  s.now, s.present)
  }

  function OpOf(call: Call): Protocol.Op {
    if call.Handoff? then call.op else Protocol.Skip
  }

  // ---------------------------------------------------------------- each call refines its protocol step

  lemma JoinRefines(c: Cell, p: string)
    requires Inv(c)
    ensures CellView(Join(c, p).0) == Protocol.JoinCell(CellView(c), p)
    ensures Join(c, p).1.ok <==> Protocol.JoinSucceeds(CellView(c), p)
  {
  }

  lemma LeaveRefines(c: Cell, p: string)
    requires Inv(c)
    ensures CellView(Leave(c, p).0) == Protocol.LeaveCell(CellView(c), p)
  {
    LeaveRecords(c, p);
    RecordsLeft(c.preparedByTk, p);
    hide Inv, WorldState.Destroy, RecordsView, WithoutRecordsOf;
    assert (c.playerByID - {p}).Keys == c.playerByID.Keys - {p};
  }

  lemma RecordsLeft(records: map<string, Prepared>, p: string)
    ensures RecordsView(WithoutRecordsOf(records, p)) ==
            map tok <- RecordsView(records) | RecordsView(records)[tok].player != p :: RecordsView(records)[tok]
  {
  }

  /** The active token Leave deletes first is one of the player's own records. */
  lemma LeaveRecords(c: Cell, p: string)
    requires HandoffsLinked(c)
    ensures p != "" ==> Leave(c, p).0.preparedByTk == WithoutRecordsOf(c.preparedByTk, p)
  {
    if p in c.preparedByID {
      assert HasOpenRecord(c, p, c.preparedByID[p]);
      OwnRecordFirst(c.preparedByTk, c.preparedByID[p], p);
    }
    hide HandoffsLinked, WithoutRecordsOf, WorldState.Destroy;
    assert c.preparedByTk - {} == c.preparedByTk;
  }

  lemma OwnRecordFirst(records: map<string, Prepared>, tok: string, p: string)
    requires tok in records && records[tok].playerID == p
    ensures WithoutRecordsOf(records - {tok}, p) == WithoutRecordsOf(records, p)
  {
  }

  lemma PruneRefines(c: Cell, now: nat)
    requires Inv(c)
    ensures CellView(Prune(c, now)) == Protocol.PruneCell(CellView(c), now, STALE_AFTER)
  {
    PruneKeeps(c, now);
  }

  /** A player is frozen exactly while the cell has an open record of them. */
  lemma FrozenIsInFlight(c: Cell, p: string)
    requires Inv(c)
    ensures p in c.frozen <==> Protocol.InFlight(CellView(c), p)
  {
    var v := CellView(c);
    if p in c.preparedByID {
      assert HasOpenRecord(c, p, c.preparedByID[p]);
      assert Protocol.OpenFor(v, c.preparedByID[p], p);
    }
    forall tok | tok in v.records && Protocol.OpenFor(v, tok, p) ensures p in c.frozen {
      assert RecordLinked(c, tok);
    }
  }

  lemma PrepareRefines(c: Cell, p: string, target: string, tok: string, now: nat)
    requires Inv(c) && now > 0 && p != "" && target != "" && tok != ""
    ensures CellView(Prepare(c, p, target, tok, now).0) == Protocol.PrepareCell(CellView(c), p, tok, now, STALE_AFTER)
    ensures Prepare(c, p, target, tok, now).1.ok <==> Protocol.PrepareSucceeds(CellView(c), p, tok, now, STALE_AFTER)
    ensures Prepare(c, p, target, tok, now).1.ok <==> Prepare(c, p, target, tok, now).1.payload.Some?
  {
    PruneRefines(c, now);
    PruneKeeps(c, now);
    var b := Prune(c, now);
    FrozenIsInFlight(b, p);
    if tok !in b.preparedByTk {
      assert HandoffsLinked(b) && EntitiesPresent(b);
      hide Prune, HandoffsLinked, EntitiesPresent;
      FreshRefines(b, p, target, tok, now);
    }
  }

  lemma FreshRefines(c: Cell, p: string, target: string, tok: string, now: nat)
    requires HandoffsLinked(c) && EntitiesPresent(c) && p != "" && tok != "" && tok !in c.preparedByTk
    requires forall t <- c.preparedByTk :: c.preparedByTk[t].finalized || now - c.preparedByTk[t].createdAt <= STALE_AFTER
    ensures var (d, reply) := PrepareFresh(c, p, target, tok, now);
            (if p in c.playerByID && p !in c.frozen
             then CellView(d) == CellView(c).(records := CellView(c).records[tok := Protocol.Record(p, false, now)])
             else CellView(d) == CellView(c)) &&
            (reply.ok <==> p in c.playerByID && p !in c.frozen) && (reply.ok <==> reply.payload.Some?)
  {
    if p in c.preparedByID {
      assert HasOpenRecord(c, p, c.preparedByID[p]) && RecordLinked(c, c.preparedByID[p]);
      assert PrepareFresh(c, p, target, tok, now) == (c, PrepareReply(false, InProgress, None));
    } else {
      hide HandoffsLinked, EntitiesPresent;
      FreshOfUnfrozen(c, p, target, tok, now);
    }
  }

  lemma FreshOfUnfrozen(c: Cell, p: string, target: string, tok: string, now: nat)
    requires tok !in c.preparedByTk && p !in c.preparedByID
    requires p in c.playerByID ==> c.playerByID[p] in c.world.positions
    ensures var (d, reply) := PrepareFresh(c, p, target, tok, now);
            (if p in c.playerByID
             then CellView(d) == CellView(c).(records := CellView(c).records[tok := Protocol.Record(p, false, now)])
             else CellView(d) == CellView(c)) &&
            (reply.ok <==> p in c.playerByID) && (reply.ok <==> reply.payload.Some?)
  {
    if p in c.playerByID {
      var d := PrepareFresh(c, p, target, tok, now).0;
      assert CellView(d).records == CellView(c).records[tok := Protocol.Record(p, false, now)];
    }
  }

  /** What a Prepare answers with names the record's player. */
  lemma PayloadNames(c: Cell, p: string, target: string, tok: string, now: nat)
    requires Inv(c) && now > 0
    ensures var (d, reply) := Prepare(c, p, target, tok, now);
            reply.payload.Some? ==>
              tok in d.preparedByTk && reply.payload.value.playerID == d.preparedByTk[tok].playerID
  {
    PruneKeeps(c, now);
    if tok in Prune(c, now).preparedByTk {
      assert RecordLinked(Prune(c, now), tok);
    }
  }

  lemma AcceptRefines(c: Cell, p: Payload)
    requires p.playerID != "" && p.token != ""
    ensures CellView(Accept(c, p).0) == Protocol.AcceptCell(CellView(c), p.playerID, p.token)
    ensures Accept(c, p).1.ok
  {
  }

  lemma FinalizeRegistered(c: Cell, p: string, tok: string)
    requires Inv(c)
    ensures HasOpenRecord(c, p, tok) ==> p in c.playerByID
    ensures Finalize(c, p, tok).1.message == UnknownToken ==> Finalize(c, p, tok).0 == c
  {
    FinalizeKeeps(c, p, tok);
    if tok in c.preparedByTk {
      assert RecordLinked(c, tok);
    }
  }

  lemma OpenInView(c: Cell, p: string, tok: string)
    ensures Protocol.OpenFor(CellView(c), tok, p) <==> HasOpenRecord(c, p, tok)
    ensures tok in c.preparedByTk ==> tok in RecordsView(c.preparedByTk) && RecordsView(c.preparedByTk)[tok] == RecordView(c.preparedByTk[tok])
  {
  }

  lemma FinalizeRefines(c: Cell, p: string, tok: string)
    requires Inv(c) && p != "" && tok != ""
    ensures CellView(Finalize(c, p, tok).0) == Protocol.FinalizeCell(CellView(c), p, tok)
  {
    FinalizeRegistered(c, p, tok);
    hide Inv, WorldState.Destroy;
    if HasOpenRecord(c, p, tok) {
      var r := c.preparedByTk[tok];
      RecordsUpdated(c.preparedByTk, tok, r.(finalized := true));
      hide RecordsView;
      assert Protocol.OpenFor(CellView(c), tok, p) by { OpenInView(c, p, tok); }
      assert RecordsView(c.preparedByTk)[tok] == RecordView(r) by { OpenInView(c, p, tok); }
      assert (c.playerByID - {p}).Keys == c.playerByID.Keys - {p};
    } else {
      OpenInView(c, p, tok);
      assert Finalize(c, p, tok).0 == c;
    }
  }

  // ---------------------------------------------------------------- the system refines the protocol

  /** Every cell is consistent, payloads name their drive's player, and the view is a protocol state. */
  ghost predicate SystemInv(s: System) {
    s.now > 0 &&
    (forall id <- s.cells :: Inv(s.cells[id])) &&
    (forall tok <- s.drives :: s.drives[tok].payload.Some? ==> s.drives[tok].payload.value.playerID == s.drives[tok].player) &&
    Protocol.Inv(View(s))
  }

  lemma InitialIsInitial(s: System)
    requires Initial(s)
    ensures SystemInv(s) && Protocol.Initial(View(s))
  {
    Protocol.InitialInv(View(s));
  }

  /** The parts of the invariant one cell's step has to restore itself. */
  lemma Assemble(s: System, t: System, id: string)
    requires SystemInv(s) && t.now >= s.now && Protocol.Inv(View(t))
    requires id in t.cells ==> Inv(t.cells[id])
    requires forall x <- t.cells :: x != id ==> x in s.cells && t.cells[x] == s.cells[x]
    requires forall tok <- t.drives :: (tok in s.drives && t.drives[tok] == s.drives[tok]) ||
               (t.drives[tok].payload.Some? ==> t.drives[tok].payload.value.playerID == t.drives[tok].player)
    ensures SystemInv(t)
  {
    hide Inv, Protocol.Inv, View;
  }

  lemma ViewWith(s: System, id: string, c: Cell)
    requires id in s.cells
    ensures View(With(s, id, c)) == Protocol.With(View(s), id, CellView(c))
  {
    hide CellView, DriveView;
    assert View(With(s, id, c)).cells == View(s).cells[id := CellView(c)];
  }

  lemma ViewNotes(s: System, tok: string, d: Drive)
    ensures View(s.(drives := s.drives[tok := d])) == View(s).(drives := View(s).drives[tok := DriveView(d)])
  {
    assert View(s.(drives := s.drives[tok := d])).drives == View(s).drives[tok := DriveView(d)];
  }

  lemma StepRefines(s: System, call: Call)
    requires SystemInv(s) && Roomy(s, call)
    ensures SystemInv(Step(s, call)) && View(Step(s, call)) == Protocol.Step(View(s), OpOf(call))
  {
    hide Inv, Protocol.Inv, SystemInv, View, Protocol.Step, CellView;
    if call.Handoff? {
      match call.op
      case Join(id, p) => JoinStep(s, id, p);
      case Leave(id, p) => LeaveStep(s, id, p);
      case Drain(id, on) => DrainStep(s, id, on);
      case Start(_, _, _, _) => StartStep(s, call.op);
      case Prepare(tok) => PrepareStep(s, tok);
      case Accept(tok) => AcceptStep(s, tok);
      case Finalize(tok) => FinalizeStep(s, tok);
      case Wait(n) => WaitStep(s, n);
      case Skip => SkipStep(s);
    } else {
      LocalStep(s, call);
    }
  }

  lemma JoinStep(s: System, id: string, p: string)
    requires SystemInv(s) && Roomy(s, Handoff(Protocol.Join(id, p)))
    ensures var op := Protocol.Join(id, p);
            SystemInv(StepHandoff(s, op)) && View(StepHandoff(s, op)) == Protocol.Step(View(s), op)
  {
    hide Inv, Protocol.Inv, Join, Protocol.JoinCell, CellView;
    var op := Protocol.Join(id, p);
    Protocol.StepKeepsInv(View(s), op);
    if id in s.cells {
      JoinRefines(s.cells[id], p);
      JoinKeeps(s.cells[id], p);
      ViewWith(s, id, Join(s.cells[id], p).0);
    }
    Assemble(s, StepHandoff(s, op), id);
  }

  lemma LeaveStep(s: System, id: string, p: string)
    requires SystemInv(s)
    ensures var op := Protocol.Leave(id, p);
            SystemInv(StepHandoff(s, op)) && View(StepHandoff(s, op)) == Protocol.Step(View(s), op)
  {
    hide Inv, Protocol.Inv, Leave, Protocol.LeaveCell, CellView, Protocol.AnswersElsewhere;
    var op := Protocol.Leave(id, p);
    Protocol.StepKeepsInv(View(s), op);
    if id in s.cells {
      LeaveRefines(s.cells[id], p);
      LeaveKeeps(s.cells[id], p);
      ViewWith(s, id, Leave(s.cells[id], p).0);
    }
    Assemble(s, StepHandoff(s, op), id);
  }

  lemma DrainStep(s: System, id: string, on: bool)
    requires SystemInv(s)
    ensures var op := Protocol.Drain(id, on);
            SystemInv(StepHandoff(s, op)) && View(StepHandoff(s, op)) == Protocol.Step(View(s), op)
  {
    hide Inv, Protocol.Inv;
    var op := Protocol.Drain(id, on);
    Protocol.StepKeepsInv(View(s), op);
    if id in s.cells {
      DrainKeeps(s.cells[id], on);
      ViewWith(s, id, s.cells[id].(drain := on));
    }
    Assemble(s, StepHandoff(s, op), id);
  }

  lemma StartStep(s: System, op: Protocol.Op)
    requires SystemInv(s) && op.Start?
    ensures SystemInv(StepHandoff(s, op)) && View(StepHandoff(s, op)) == Protocol.Step(View(s), op)
  {
    hide Inv, Protocol.Inv, CellView;
    Protocol.StepKeepsInv(View(s), op);
    ViewNotes(s, op.token, Drive(op.player, op.src, op.dst, None, false));
    assert View(StepHandoff(s, op)) == Protocol.Step(View(s), op);
    Assemble(s, StepHandoff(s, op), "");
  }

  lemma PrepareStep(s: System, tok: string)
    requires SystemInv(s)
    ensures var op := Protocol.Prepare(tok);
            SystemInv(StepHandoff(s, op)) && View(StepHandoff(s, op)) == Protocol.Step(View(s), op)
  {
    hide Inv, Prepare, Protocol.PrepareCell, Protocol.PrepareSucceeds, CellView, Protocol.CellOk;
    var op := Protocol.Prepare(tok);
    Protocol.StepKeepsInv(View(s), op);
    if Knows(s, tok) {
      var d := s.drives[tok];
      assert Protocol.DriveInv(View(s), tok);
      PrepareRefines(s.cells[d.src], d.player, d.dst, tok, s.now);
      PrepareKeeps(s.cells[d.src], d.player, d.dst, tok, s.now);
      PayloadForDrive(s, tok);
      ViewWith(s, d.src, Prepare(s.cells[d.src], d.player, d.dst, tok, s.now).0);
      ViewNotes(With(s, d.src, Prepare(s.cells[d.src], d.player, d.dst, tok, s.now).0), tok, StepHandoff(s, op).drives[tok]);
      assert View(StepHandoff(s, op)) == Protocol.Step(View(s), op);
      Assemble(s, StepHandoff(s, op), d.src);
    }
  }

  lemma PayloadForDrive(s: System, tok: string)
    requires SystemInv(s) && Knows(s, tok)
    ensures var d := s.drives[tok];
            var reply := Prepare(s.cells[d.src], d.player, d.dst, tok, s.now).1;
            reply.payload.Some? ==> reply.payload.value.playerID == d.player
  {
    hide Inv;
    var d := s.drives[tok];
    PayloadNames(s.cells[d.src], d.player, d.dst, tok, s.now);
    RecordNamesDrive(s, tok);
    PruneRefines(s.cells[d.src], s.now);
  }

  lemma RecordNamesDrive(s: System, tok: string)
    requires SystemInv(s) && Knows(s, tok)
    ensures var c := s.cells[s.drives[tok].src];
            tok in c.preparedByTk ==> c.preparedByTk[tok].playerID == s.drives[tok].player
  {
    hide Inv;
    var id := s.drives[tok].src;
    assert Protocol.CellOk(View(s).drives, id, View(s).cells[id]);
    assert tok in s.cells[id].preparedByTk ==> tok in View(s).cells[id].records;
  }

  lemma AcceptStep(s: System, tok: string)
    requires SystemInv(s) && Roomy(s, Handoff(Protocol.Accept(tok)))
    ensures var op := Protocol.Accept(tok);
            SystemInv(StepHandoff(s, op)) && View(StepHandoff(s, op)) == Protocol.Step(View(s), op)
  {
    hide Inv, Accept, Protocol.AcceptCell, CellView, Protocol.CellOk;
    var op := Protocol.Accept(tok);
    Protocol.StepKeepsInv(View(s), op);
    if Knows(s, tok) && s.drives[tok].payload.Some? {
      var d := s.drives[tok];
      assert Protocol.DriveInv(View(s), tok);
      var p := Forwarded(d, tok);
      AcceptRefines(s.cells[d.dst], p);
      AcceptKeeps(s.cells[d.dst], p);
      ViewWith(s, d.dst, Accept(s.cells[d.dst], p).0);
      ViewNotes(With(s, d.dst, Accept(s.cells[d.dst], p).0), tok, StepHandoff(s, op).drives[tok]);
      assert View(StepHandoff(s, op)) == Protocol.Step(View(s), op);
      Assemble(s, StepHandoff(s, op), d.dst);
    }
  }

  lemma FinalizeStep(s: System, tok: string)
    requires SystemInv(s)
    ensures var op := Protocol.Finalize(tok);
            SystemInv(StepHandoff(s, op)) && View(StepHandoff(s, op)) == Protocol.Step(View(s), op)
  {
    hide Inv, Finalize, Protocol.FinalizeCell, CellView, Protocol.CellOk;
    var op := Protocol.Finalize(tok);
    Protocol.StepKeepsInv(View(s), op);
    if Knows(s, tok) && s.drives[tok].accepted {
      var d := s.drives[tok];
      assert Protocol.DriveInv(View(s), tok);
      FinalizeRefines(s.cells[d.src], d.player, tok);
      FinalizeKeeps(s.cells[d.src], d.player, tok);
      ViewWith(s, d.src, Finalize(s.cells[d.src], d.player, tok).0);
      Assemble(s, StepHandoff(s, op), d.src);
    }
  }

  lemma WaitStep(s: System, n: nat)
    requires SystemInv(s)
    ensures var op := Protocol.Wait(n);
            SystemInv(StepHandoff(s, op)) && View(StepHandoff(s, op)) == Protocol.Step(View(s), op)
  {
    hide Inv, Protocol.Inv, CellView;
    Protocol.StepKeepsInv(View(s), Protocol.Wait(n));
    Assemble(s, StepHandoff(s, Protocol.Wait(n)), "");
  }

  lemma SkipStep(s: System)
    requires SystemInv(s)
    ensures SystemInv(s) && View(s) == Protocol.Step(View(s), Protocol.Skip)
  {
  }

  /** Inputs, simulation steps and imports are invisible to the protocol. */
  lemma LocalStep(s: System, call: Call)
    requires SystemInv(s) && Roomy(s, call) && !call.Handoff?
    ensures SystemInv(Step(s, call)) && View(Step(s, call)) == Protocol.Step(View(s), Protocol.Skip)
  {
    hide Inv, Protocol.Inv, CellView, ApplyInput, Tick, Persist.Import, Persist.IdsFit;
    if call.cell in s.cells {
      var c := s.cells[call.cell];
      LocalRefines(c, call);
      var t := Step(s, call);
      ViewWith(s, call.cell, t.cells[call.cell]);
      assert View(t) == View(s);
      Assemble(s, t, call.cell);
    }
  }

  lemma LocalRefines(c: Cell, call: Call)
    requires Inv(c) && !call.Handoff?
    ensures call.Input? ==> Inv(ApplyInput(c, call.player, call.velocity).0) &&
                            CellView(ApplyInput(c, call.player, call.velocity).0) == CellView(c)
    ensures call.Simulate? && c.loop.tps > 0.0 ==> Inv(Tick(c)) && CellView(Tick(c)) == CellView(c)
    ensures call.ImportNpcs? && Persist.IdsFit(call.persist.entities) ==>
              Inv(Persist.Import(c, call.persist).0) && CellView(Persist.Import(c, call.persist).0) == CellView(c)
  {
    hide Inv, WorldState.Moved, WorldState.Regenerated, Persist.DecodedWorld;
    if call.Input? {
      InputKeeps(c, call.player, call.velocity);
    } else if call.Simulate? {
      if c.loop.tps > 0.0 {
        TickKeeps(c);
      }
    } else if Persist.IdsFit(call.persist.entities) {
      ImportKeeps(c, call.persist);
    }
  }

  lemma DrainKeeps(c: Cell, on: bool)
    requires Inv(c)
    ensures Inv(c.(drain := on))
  {
    var d := c.(drain := on);
    assert forall tok <- d.preparedByTk :: RecordLinked(c, tok);
    assert forall p <- d.preparedByID :: HasOpenRecord(c, p, c.preparedByID[p]);
  }

  /** Import only happens without players, hence without open handoffs. */
  lemma ImportKeeps(c: Cell, p: Persist.CellPersist)
    requires Inv(c) && Persist.IdsFit(p.entities)
    ensures Inv(Persist.Import(c, p).0)
    ensures Persist.Import(c, p).0.playerByID == c.playerByID
  {
    var d := Persist.Import(c, p).0;
    if d != c {
      Persist.RestoreKeepsFreshIds(Persist.Cleared(c.world), p.entities);
      assert forall tok <- d.preparedByTk :: RecordLinked(c, tok);
      assert forall q <- c.frozen :: q in c.playerByID by {
        forall q | q in c.frozen ensures q in c.playerByID { FrozenIsRegistered(c, q); }
      }
    }
  }

  // ---------------------------------------------------------------- runs

  predicate RoomyRun(s: System, calls: seq<Call>)
    decreases |calls|
  {
    calls != [] ==> Roomy(s, calls[0]) && RoomyRun(Step(s, calls[0]), calls[1..])
  }

  function Ops(calls: seq<Call>): (ops: seq<Protocol.Op>)
    ensures |ops| == |calls|
  {
    if calls == [] then [] else [OpOf(calls[0])] + Ops(calls[1..])
  }

  /** Every call keeps every cell consistent: whatever the callers do, as long as
      entity ids last, each reachable system is consistent and shows a run of the protocol. */
  lemma {:induction false} RunRefines(s: System, calls: seq<Call>)
    requires SystemInv(s) && RoomyRun(s, calls)
    ensures SystemInv(Run(s, calls)) && View(Run(s, calls)) == Protocol.Run(View(s), Ops(calls))
    decreases |calls|
  {
    hide SystemInv, Step, Protocol.Step, View, Roomy;
    if calls != [] {
      StepRefines(s, calls[0]);
      RunRefines(Step(s, calls[0]), calls[1..]);
      var ops := Ops(calls);
      assert ops[0] == OpOf(calls[0]) && ops[1..] == Ops(calls[1..]);
    }
  }

  /** A cell lets the player act: registered and not frozen. */
  predicate AcceptsInput(s: System, id: string, p: string) {
    id in s.cells && p in s.cells[id].playerByID && p !in s.cells[id].frozen
  }

  function Calls(ops: seq<Protocol.Op>): (calls: seq<Call>)
    ensures |calls| == |ops|
  {
    if ops == [] then [] else [Handoff(ops[0])] + Calls(ops[1..])
  }

  lemma {:induction false} OpsOfCalls(ops: seq<Protocol.Op>)
    ensures Ops(Calls(ops)) == ops
  {
    if ops != [] {
      OpsOfCalls(ops[1..]);
      assert Calls(ops)[1..] == Calls(ops[1..]);
    }
  }

  /** Only a Join and an Accept may create an entity. */
  predicate NeedsNoId(ops: seq<Protocol.Op>) {
    forall op <- ops :: !op.Join? && !op.Accept?
  }

  lemma {:induction false} NoIdsNeeded(s: System, ops: seq<Protocol.Op>)
    requires NeedsNoId(ops)
    ensures RoomyRun(s, Calls(ops))
    decreases |ops|
  {
    hide Step;
    if ops != [] {
      assert NeedsNoId(ops[1..]);
      NoIdsNeeded(Step(s, Handoff(ops[0])), ops[1..]);
      assert Calls(ops)[0] == Handoff(ops[0]) && Calls(ops)[1..] == Calls(ops[1..]);
    }
  }

  /** What protocol calls that need no id do to the servers is what they do to the view. */
  lemma FollowView(s: System, ops: seq<Protocol.Op>)
    requires SystemInv(s) && NeedsNoId(ops)
    ensures SystemInv(Run(s, Calls(ops))) && View(Run(s, Calls(ops))) == Protocol.Run(View(s), ops)
  {
    NoIdsNeeded(s, ops);
    RunRefines(s, Calls(ops));
    OpsOfCalls(ops);
  }

  // ---------------------------------------------------------------- no player is lost

  predicate Registered(s: System, p: string) {
    exists id <- s.cells :: p in s.cells[id].playerByID
  }

  lemma RegisteredInView(s: System, p: string)
    ensures ProtocolWeakest.Registered(View(s), p) <==> Registered(s, p)
  {
    assert forall id <- s.cells :: View(s).cells[id].here == s.cells[id].playerByID.Keys;
  }

  /** Some order of the Finalizes that drivers may still send leaves the player registered in no cell. */
  ghost predicate Losable(s: System, p: string) {
    exists toks: seq<string> :: LostAfter(s, p, toks)
  }

  ghost predicate LostAfter(s: System, p: string, toks: seq<string>) {
    !Registered(Run(s, Calls(ProtocolWeakest.Finalizes(toks))), p)
  }

  lemma {:induction false} FinalizesNeedNoId(toks: seq<string>)
    ensures NeedsNoId(ProtocolWeakest.Finalizes(toks))
  {
    if toks != [] {
      FinalizesNeedNoId(toks[1..]);
    }
  }

  lemma LosableExactly(s: System, p: string)
    requires SystemInv(s) && ProtocolWeakest.Noted(View(s))
    ensures Losable(s, p) <==> !Protocol.Answered(View(s), p)
  {
    hide SystemInv, Protocol.Inv, ProtocolWeakest.Noted, ProtocolWeakest.Survives, LostAfter, Protocol.Answered;
    forall toks: seq<string> ensures LostAfter(s, p, toks) <==> !ProtocolWeakest.Survives(View(s), p, toks) {
      LostInView(s, p, toks);
    }
    ViewOk(s);
    ProtocolWeakest.AnsweredIsWeakest(View(s), p);
  }

  lemma LostInView(s: System, p: string, toks: seq<string>)
    requires SystemInv(s)
    ensures LostAfter(s, p, toks) <==> !ProtocolWeakest.Survives(View(s), p, toks)
  {
    hide SystemInv, Run, Protocol.Run, Registered, ProtocolWeakest.Registered;
    FinalizesNeedNoId(toks);
    FollowView(s, ProtocolWeakest.Finalizes(toks));
    RegisteredInView(Run(s, Calls(ProtocolWeakest.Finalizes(toks))), p);
  }

  lemma ViewOk(s: System)
    requires SystemInv(s)
    ensures Protocol.Inv(View(s))
  {
    hide Protocol.Inv, View, Inv;
  }

  /** Whoever cannot be lost, or is told that they joined, cannot be lost after the
      call, unless it is their Leave at the last cell that answers. */
  ghost predicate KeepsEverybody(s: System, call: Call) {
    forall p | !Losable(s, p) || Protocol.JoinsNow(View(s), OpOf(call), p) ::
      Protocol.LeavesLast(View(s), OpOf(call), p) || !Losable(Step(s, call), p)
  }

  ghost predicate NeverLosable(s: System, calls: seq<Call>)
    decreases |calls|
  {
    calls != [] ==> KeepsEverybody(s, calls[0]) && NeverLosable(Step(s, calls[0]), calls[1..])
  }

  lemma SafeNow(s: System, call: Call)
    requires SystemInv(s) && ProtocolWeakest.Noted(View(s)) && SystemInv(Step(s, call)) && ProtocolWeakest.Noted(View(Step(s, call)))
    requires View(Step(s, call)) == Protocol.Step(View(s), OpOf(call))
    ensures KeepsEverybody(s, call) <==> Protocol.LosesNobody(View(s), OpOf(call))
  {
    hide Losable, Protocol.Answered, SystemInv, ProtocolWeakest.Noted, Step, Protocol.Step, View, Protocol.JoinsNow, Protocol.LeavesLast;
    forall p ensures (Losable(s, p) <==> !Protocol.Answered(View(s), p)) &&
                     (Losable(Step(s, call), p) <==> !Protocol.Answered(View(Step(s, call)), p))
    {
      LosableExactly(s, p);
      LosableExactly(Step(s, call), p);
    }
  }

  lemma {:induction false} NeverLosableInView(s: System, calls: seq<Call>)
    requires SystemInv(s) && RoomyRun(s, calls) && ProtocolWeakest.Noted(View(s))
    ensures NeverLosable(s, calls) <==> Protocol.NeverLoses(View(s), Ops(calls))
    decreases |calls|
  {
    hide SystemInv, Step, Protocol.Step, View, Roomy, KeepsEverybody, Protocol.LosesNobody, ProtocolWeakest.Noted;
    if calls != [] {
      StepRefines(s, calls[0]);
      ViewOk(s);
      ProtocolWeakest.StepKeepsNoted(View(s), OpOf(calls[0]));
      SafeNow(s, calls[0]);
      NeverLosableInView(Step(s, calls[0]), calls[1..]);
      var ops := Ops(calls);
      assert ops[0] == OpOf(calls[0]) && ops[1..] == Ops(calls[1..]);
    }
  }

  lemma StartIsNoted(s: System)
    requires Initial(s)
    ensures ProtocolWeakest.Noted(View(s))
  {
  }

  /** No call makes a player losable, over any number of cells and drivers and
      their Leave at the last answering cell apart, if and only if every call is
      safe; then every player who joined and has not left that last cell since is
      registered in a cell that has not handed them over. A Leave anywhere else
      takes nobody out of this. */
  lemma NoPlayerIsLost(s: System, calls: seq<Call>)
    requires Initial(s) && RoomyRun(s, calls)
    ensures NeverLosable(s, calls) <==> Protocol.SafeRun(View(s), Ops(calls))
    ensures Protocol.SafeRun(View(s), Ops(calls)) ==>
              forall p <- Run(s, calls).present ::
                exists id <- Run(s, calls).cells ::
                  p in Run(s, calls).cells[id].playerByID && !Protocol.HandedOver(View(Run(s, calls)), id, p)
  {
    InitialIsInitial(s);
    Protocol.InitialInv(View(s));
    StartIsNoted(s);
    hide SystemInv, Step, Protocol.Step, Protocol.HandedOver, ProtocolWeakest.Noted, NeverLosable, Protocol.NeverLoses, Protocol.SafeRun;
    RunRefines(s, calls);
    NeverLosableInView(s, calls);
    Protocol.RunLosesNobody(View(s), Ops(calls));
    if Protocol.SafeRun(View(s), Ops(calls)) {
      var t := Run(s, calls);
      forall p <- t.present ensures exists id <- t.cells :: p in t.cells[id].playerByID && !Protocol.HandedOver(View(t), id, p) {
        assert p in View(t).present;
        var id :| Protocol.Answers(View(t), id, p);
        assert id in t.cells;
      }
    }
  }

  // ---------------------------------------------------------------- no player acts twice

  /** Waiting and handoffs of other players, none of which forgets a takeover of
      this one, can let the player act in two cells. */
  ghost predicate MayActTwice(s: System, p: string) {
    exists ops: seq<Protocol.Op> :: TwiceAfter(s, p, ops)
  }

  ghost predicate TwiceAfter(s: System, p: string, ops: seq<Protocol.Op>) {
    ProtocolWeakest.PatientRun(View(s), ops, p) && ActsTwice(Run(s, Calls(ops)), p)
  }

  ghost predicate ActsTwice(s: System, p: string) {
    exists a, b :: a != b && AcceptsInput(s, a, p) && AcceptsInput(s, b, p)
  }

  lemma {:induction false} PatienceNeedsNoId(v: Protocol.View, ops: seq<Protocol.Op>, p: string)
    requires ProtocolWeakest.PatientRun(v, ops, p)
    ensures NeedsNoId(ops)
    decreases |ops|
  {
    hide Protocol.Step, Protocol.Forgets;
    if ops != [] {
      PatienceNeedsNoId(Protocol.Step(v, ops[0]), ops[1..], p);
    }
  }

  lemma ActiveInView(s: System, id: string, p: string)
    requires SystemInv(s)
    ensures ProtocolWeakest.Active(View(s), id, p) <==> AcceptsInput(s, id, p)
  {
    hide Inv, Protocol.Inv;
    if id in s.cells {
      FrozenIsInFlight(s.cells[id], p);
      assert View(s).cells[id] == CellView(s.cells[id]);
    }
  }

  lemma ActsTwiceInView(s: System, p: string)
    requires SystemInv(s)
    ensures ProtocolWeakest.ActiveOnce(View(s), p) <==> !ActsTwice(s, p)
  {
    hide SystemInv, AcceptsInput, ProtocolWeakest.Active;
    forall id ensures ProtocolWeakest.Active(View(s), id, p) <==> AcceptsInput(s, id, p) {
      ActiveInView(s, id, p);
    }
  }

  lemma MayActTwiceExactly(s: System, p: string)
    requires SystemInv(s) && "" !in s.cells
    ensures MayActTwice(s, p) <==> !ProtocolWeakest.AnswersOnce(View(s), p)
  {
    hide SystemInv, Protocol.Inv, TwiceAfter, ProtocolWeakest.StaysSingle, ProtocolWeakest.AnswersOnce;
    forall ops: seq<Protocol.Op> ensures TwiceAfter(s, p, ops) <==> !ProtocolWeakest.StaysSingle(View(s), p, ops) {
      TwiceInView(s, p, ops);
    }
    ViewOk(s);
    NamedCells(s);
    ProtocolWeakest.AnswersOnceIsWeakest(View(s), p);
  }

  lemma NamedCells(s: System)
    ensures "" in View(s).cells <==> "" in s.cells
  {
  }

  lemma TwiceInView(s: System, p: string, ops: seq<Protocol.Op>)
    requires SystemInv(s)
    ensures TwiceAfter(s, p, ops) <==> !ProtocolWeakest.StaysSingle(View(s), p, ops)
  {
    hide SystemInv, Run, Protocol.Run, ProtocolWeakest.PatientRun, ActsTwice, ProtocolWeakest.ActiveOnce;
    if ProtocolWeakest.PatientRun(View(s), ops, p) {
      PatienceNeedsNoId(View(s), ops, p);
      FollowView(s, ops);
      ActsTwiceInView(Run(s, Calls(ops)), p);
    }
  }

  ghost predicate NeverActsTwice(s: System, calls: seq<Call>)
    decreases |calls|
  {
    (forall p :: !MayActTwice(s, p)) && (calls != [] ==> NeverActsTwice(Step(s, calls[0]), calls[1..]))
  }

  lemma SoleNow(s: System)
    requires SystemInv(s) && "" !in s.cells
    ensures (forall p :: !MayActTwice(s, p)) <==> Protocol.OneAnswers(View(s))
  {
    hide SystemInv, MayActTwice, View, Protocol.Answers;
    forall p ensures MayActTwice(s, p) <==> !ProtocolWeakest.AnswersOnce(View(s), p) {
      MayActTwiceExactly(s, p);
    }
    OnceEach(View(s));
  }

  lemma OnceEach(v: Protocol.View)
    ensures Protocol.OneAnswers(v) <==> forall p :: ProtocolWeakest.AnswersOnce(v, p)
  {
    hide Protocol.Answers;
    if !Protocol.OneAnswers(v) {
      var p, a, b :| Protocol.Answers(v, a, p) && Protocol.Answers(v, b, p) && a != b;
      assert !ProtocolWeakest.AnswersOnce(v, p);
    }
  }

  lemma CellsStay(s: System, call: Call)
    ensures Step(s, call).cells.Keys == s.cells.Keys
  {
    hide Join, Leave, ApplyInput, Prepare, Accept, Finalize, Tick, Persist.Import;
  }

  lemma {:induction false} NeverTwiceInView(s: System, calls: seq<Call>)
    requires SystemInv(s) && RoomyRun(s, calls) && "" !in s.cells
    ensures NeverActsTwice(s, calls) <==> Protocol.AlwaysOne(View(s), Ops(calls))
    decreases |calls|
  {
    hide SystemInv, Step, Protocol.Step, View, Roomy, MayActTwice, Protocol.OneAnswers;
    SoleNow(s);
    if calls != [] {
      StepRefines(s, calls[0]);
      CellsStay(s, calls[0]);
      assert "" !in Step(s, calls[0]).cells.Keys;
      NeverTwiceInView(Step(s, calls[0]), calls[1..]);
      var ops := Ops(calls);
      assert ops[0] == OpOf(calls[0]) && ops[1..] == Ops(calls[1..]);
    }
  }

  /** No player can come to act in two cells if and only if every call meets
      `Sole`; then at most one cell lets a player act. */
  lemma OneCellAcceptsInput(s: System, calls: seq<Call>)
    requires Initial(s) && RoomyRun(s, calls)
    ensures "" !in s.cells ==> (NeverActsTwice(s, calls) <==> Protocol.SoleRun(View(s), Ops(calls)))
    ensures Protocol.SoleRun(View(s), Ops(calls)) ==> forall p :: !ActsTwice(Run(s, calls), p)
  {
    InitialIsInitial(s);
    Protocol.InitialInv(View(s));
    hide SystemInv, Step, Protocol.Step, Protocol.Answers, AcceptsInput, NeverActsTwice, Protocol.AlwaysOne, Protocol.SoleRun;
    RunRefines(s, calls);
    if "" !in s.cells {
      NeverTwiceInView(s, calls);
    }
    Protocol.RunActivatesOnce(View(s), Ops(calls));
    if Protocol.SoleRun(View(s), Ops(calls)) {
      forall p, a | AcceptsInput(Run(s, calls), a, p) ensures Protocol.Answers(View(Run(s, calls)), a, p) {
        ActiveAnswers(Run(s, calls), a, p);
      }
    }
  }

  lemma ActiveAnswers(s: System, id: string, p: string)
    requires SystemInv(s) && AcceptsInput(s, id, p)
    ensures Protocol.Answers(View(s), id, p)
  {
    hide Inv, Protocol.Inv, Protocol.Taken;
    FrozenIsInFlight(s.cells[id], p);
    assert View(s).cells[id] == CellView(s.cells[id]);
  }

  /** A Finalize repeated after any further run removes nobody from any cell,
      unless its token was prepared afresh in between. */
  lemma RepeatedFinalizeRemovesNobody(s: System, calls: seq<Call>, tok: string)
    requires SystemInv(s) && RoomyRun(s, calls)
    requires Protocol.Closed(View(s), tok) && Protocol.NeverReopened(View(s), tok, Ops(calls))
    ensures var t, u := Run(s, calls), Step(Run(s, calls), Handoff(Protocol.Finalize(tok)));
            u.cells.Keys == t.cells.Keys && forall id <- t.cells :: u.cells[id].playerByID.Keys == t.cells[id].playerByID.Keys
  {
    hide Step, Protocol.Step, Protocol.Closed, Protocol.NeverReopened, Protocol.Inv;
    RunRefines(s, calls);
    Protocol.FinalizeOnlyOnce(View(s), tok, Ops(calls));
    StepRefines(Run(s, calls), Handoff(Protocol.Finalize(tok)));
    var t, u := Run(s, calls), Step(Run(s, calls), Handoff(Protocol.Finalize(tok)));
    assert View(u).cells == View(t).cells;
    assert View(u).cells.Keys == u.cells.Keys && View(t).cells.Keys == t.cells.Keys;
    forall id <- t.cells ensures u.cells[id].playerByID.Keys == t.cells[id].playerByID.Keys {
      assert CellView(u.cells[id]) == View(u).cells[id];
      assert CellView(t.cells[id]) == View(t).cells[id];
    }
  }
}
