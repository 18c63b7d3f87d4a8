/** The handoff protocol with everything but its bones removed: who is registered
    where, which handoff records exist, which tokens have arrived. `Cluster` shows
    that the servers with their linked tables and worlds refine it. */
module Protocol {

  datatype Record = Record(player: string, finalized: bool, since: nat)

  datatype CellView = CellView(here: set<string>, records: map<string, Record>, arrived: set<string>, drain: bool)

  datatype DriveView = DriveView(player: string, src: string, dst: string, prepared: bool, accepted: bool)

  /** `present` is history: the players who joined and have not since left the last cell that answers for them. */
  datatype View = View(cells: map<string, CellView>, drives: map<string, DriveView>, now: nat, present: set<string>)

  /** Calls; a driver may stop or stall anywhere and any call may be repeated. */
  datatype Op =
    | Join(cell: string, player: string)
    | Leave(cell: string, player: string)
    | Drain(cell: string, enabled: bool)
    | Start(token: string, player: string, src: string, dst: string)
    | Prepare(token: string)
    | Accept(token: string)
    | Finalize(token: string)
    | Wait(nanos: nat)
    | Skip

  // ---------------------------------------------------------------- calls on one cell

  function JoinCell(c: CellView, p: string): CellView {
    if p == "" || c.drain then c else c.(here := c.here + {p})
  }

  predicate JoinSucceeds(c: CellView, p: string) {
    p != "" && (p in c.here || !c.drain)
  }

  function LeaveCell(c: CellView, p: string): CellView {
    if p == "" then c
    else c.(here := c.here - {p},
            records := map tok <- c.records | c.records[tok].player != p :: c.records[tok])
  }

  predicate Open(c: CellView, tok: string) {
    tok in c.records && !c.records[tok].finalized
  }

  predicate OpenFor(c: CellView, tok: string, p: string) {
    Open(c, tok) && c.records[tok].player == p
  }

  /** The player is being handed over by this cell. */
  predicate InFlight(c: CellView, p: string) {
    exists tok <- c.records :: OpenFor(c, tok, p)
  }

  predicate Expired(r: Record, now: nat, limit: nat) {
    !r.finalized && now - r.since > limit
  }

  function PruneCell(c: CellView, now: nat, limit: nat): CellView {
    c.(records := map tok <- c.records | !Expired(c.records[tok], now, limit) :: c.records[tok])
  }

  predicate PrepareSucceeds(c: CellView, p: string, tok: string, now: nat, limit: nat) {
    var b := PruneCell(c, now, limit);
    tok in b.records || (p in b.here && !InFlight(b, p))
  }

  function PrepareCell(c: CellView, p: string, tok: string, now: nat, limit: nat): CellView {
    var b := PruneCell(c, now, limit);
    if tok !in b.records && p in b.here && !InFlight(b, p)
    then b.(records := b.records[tok := Record(p, false, now)]) else b
  }

  function AcceptCell(c: CellView, p: string, tok: string): CellView {
    if tok in c.arrived then c else c.(here := c.here + {p}, arrived := c.arrived + {tok})
  }

  function FinalizeCell(c: CellView, p: string, tok: string): CellView {
    if OpenFor(c, tok, p)
    then c.(here := c.here - {p}, records := c.records[tok := c.records[tok].(finalized := true)]) else c
  }

  // ---------------------------------------------------------------- one step

  const LIMIT: nat := 5_000_000_000

  predicate CanStart(v: View, op: Op)
    requires op.Start?
  {
    op.token != "" && op.token !in v.drives && op.player != "" &&
    op.src in v.cells && op.dst in v.cells && op.src != op.dst && op.dst != ""
  }

  function With(v: View, id: string, c: CellView): View {
    v.(cells := v.cells[id := c])
  }

  predicate Knows(v: View, tok: string) {
    tok in v.drives && v.drives[tok].src in v.cells && v.drives[tok].dst in v.cells
  }

  function Step(v: View, op: Op): View {
    match op
    case Join(id, p) =>
      if id !in v.cells then v
      else With(v, id, JoinCell(v.cells[id], p)).(present :=
             if JoinSucceeds(v.cells[id], p) then v.present + {p} else v.present)
    case Leave(id, p) =>
      if id !in v.cells then v else With(v, id, LeaveCell(v.cells[id], p)).(present :=
             if AnswersElsewhere(v, id, p) then v.present else v.present - {p})
    case Drain(id, on) => if id !in v.cells then v else With(v, id, v.cells[id].(drain := on))
    case Start(tok, p, src, dst) =>
      if CanStart(v, op) then v.(drives := v.drives[tok := DriveView(p, src, dst, false, false)]) else v
    case Prepare(tok) =>
      if !Knows(v, tok) then v
      else
        var d := v.drives[tok];
        var ok := PrepareSucceeds(v.cells[d.src], d.player, tok, v.now, LIMIT);
        With(v, d.src, PrepareCell(v.cells[d.src], d.player, tok, v.now, LIMIT)).(
          drives := v.drives[tok := d.(prepared := d.prepared || ok)])
    case Accept(tok) =>
      if !Knows(v, tok) || !v.drives[tok].prepared then v
      else
        var d := v.drives[tok];
        With(v, d.dst, AcceptCell(v.cells[d.dst], d.player, tok)).(drives := v.drives[tok := d.(accepted := true)])
    case Finalize(tok) =>
      if !Knows(v, tok) || !v.drives[tok].accepted then v
      else
        var d := v.drives[tok];
        With(v, d.src, FinalizeCell(v.cells[d.src], d.player, tok))
    case Wait(n) => v.(now := v.now + n)
    case Skip => v
  }

  function Run(v: View, ops: seq<Op>): View
    decreases |ops|
  {
    if ops == [] then v else Run(Step(v, ops[0]), ops[1..])
  }

  predicate Initial(v: View) {
    v.drives == map[] && v.present == {} && forall id <- v.cells ::
      v.cells[id].here == {} && v.cells[id].records == map[] && v.cells[id].arrived == {}
  }

  // ---------------------------------------------------------------- who answers for a player

  /** The drive's target has taken the player over. */
  predicate Taken(v: View, tok: string) {
    Knows(v, tok) && tok in v.cells[v.drives[tok].dst].arrived
  }

  /** The cell still holds an open record of the player whose target already took over. */
  predicate HandedOver(v: View, id: string, p: string)
    requires id in v.cells
  {
    exists tok <- v.cells[id].records :: OpenFor(v.cells[id], tok, p) && Taken(v, tok)
  }

  /** The cell answers for the player: holds them and has not handed them over. */
  predicate Answers(v: View, id: string, p: string) {
    id in v.cells && p in v.cells[id].here && !HandedOver(v, id, p)
  }

  predicate AnswersElsewhere(v: View, id: string, p: string) {
    exists x <- v.cells :: x != id && Answers(v, x, p)
  }

  ghost predicate Answered(v: View, p: string) {
    exists id :: Answers(v, id, p)
  }

  ghost predicate NobodyLost(v: View) {
    forall p <- v.present :: Answered(v, p)
  }

  ghost predicate OneAnswers(v: View) {
    forall p, a, b :: Answers(v, a, p) && Answers(v, b, p) ==> a == b
  }

  /** A Leave at the only cell that may answer. */
  predicate LeavesLast(v: View, op: Op, p: string) {
    op.Leave? && op.player == p && op.cell in v.cells && !AnswersElsewhere(v, op.cell, p)
  }

  predicate JoinsNow(v: View, op: Op, p: string) {
    op.Join? && op.player == p && op.cell in v.cells && JoinSucceeds(v.cells[op.cell], p)
  }

  /** Whoever is answered for, or is told that they joined, is answered for after
      the call, unless it is their Leave at the last cell that answers. */
  ghost predicate LosesNobody(v: View, op: Op) {
    forall p | Answered(v, p) || JoinsNow(v, op, p) :: LeavesLast(v, op, p) || Answered(Step(v, op), p)
  }

  // ---------------------------------------------------------------- the exact guards

  /** This Join registers the player anew. */
  predicate Enters(v: View, id: string, p: string) {
    id in v.cells && p != "" && p !in v.cells[id].here && !v.cells[id].drain
  }

  /** This Prepare opens a record: the token is not known after pruning, the player is registered and has no other open one. */
  predicate Opens(v: View, tok: string)
    requires Knows(v, tok)
  {
    var d := v.drives[tok];
    var b := PruneCell(v.cells[d.src], v.now, LIMIT);
    tok !in b.records && d.player in b.here && !InFlight(b, d.player)
  }

  /** The pruning of this Prepare drops the record of a player whose target took over. */
  predicate Forgets(v: View, tok: string, q: string)
    requires Knows(v, tok)
  {
    var c := v.cells[v.drives[tok].src];
    exists k <- c.records :: OpenFor(c, k, q) && Expired(c.records[k], v.now, LIMIT) && Taken(v, k)
  }

  /** This Accept is the first for its token. */
  predicate Lands(v: View, tok: string) {
    Knows(v, tok) && v.drives[tok].prepared && !Taken(v, tok)
  }

  /** Exactly the calls that take nobody's last answering cell away, a Leave there apart. */
  ghost predicate Safe(v: View, op: Op) {
    match op
    case Join(id, p) =>
      // "already joined" at a cell that has handed the player over: only if another cell answers
      id in v.cells && HandedOver(v, id, p) ==> Answered(v, p)
    case Prepare(tok) =>
      // a fresh record under a token whose target took over: only if another cell answers
      Knows(v, tok) && Taken(v, tok) && Opens(v, tok) && Answered(v, v.drives[tok].player) ==>
        AnswersElsewhere(v, v.drives[tok].src, v.drives[tok].player)
    case Accept(tok) =>
      // a target that has itself handed the player over: only if a cell answers that does not hold this token open
      Lands(v, tok) && HandedOver(v, v.drives[tok].dst, v.drives[tok].player) && Answered(v, v.drives[tok].player) ==>
        exists x :: Answers(v, x, v.drives[tok].player) && !OpenFor(v.cells[x], tok, v.drives[tok].player)
    case _ => true
  }

  /** Exactly the calls that leave every player with at most one cell that answers. */
  ghost predicate Sole(v: View, op: Op) {
    match op
    case Join(id, p) => Enters(v, id, p) ==> !Answered(v, p)
    case Prepare(tok) =>
      // forgetting a finished takeover is harmless only if nobody answers, or this very call hands the player over again
      Knows(v, tok) ==> forall q | Forgets(v, tok, q) ::
        (q == v.drives[tok].player && Taken(v, tok) && Opens(v, tok)) || !Answered(v, q)
    case Accept(tok) =>
      // every other cell that answers is the source and still holds this token open
      Lands(v, tok) && !HandedOver(v, v.drives[tok].dst, v.drives[tok].player) ==>
        forall x | Answers(v, x, v.drives[tok].player) && x != v.drives[tok].dst :: OpenFor(v.cells[x], tok, v.drives[tok].player)
    case _ => true
  }

  ghost predicate SafeRun(v: View, ops: seq<Op>)
    decreases |ops|
  {
    ops != [] ==> Safe(v, ops[0]) && SafeRun(Step(v, ops[0]), ops[1..])
  }

  ghost predicate SoleRun(v: View, ops: seq<Op>)
    decreases |ops|
  {
    ops != [] ==> Sole(v, ops[0]) && SoleRun(Step(v, ops[0]), ops[1..])
  }

  // ---------------------------------------------------------------- plainer guards that suffice

  /** Implies `Safe`, and looks only at the cells the call concerns. */
  predicate Careful(v: View, op: Op) {
    match op
    case Join(id, p) => id in v.cells ==> !HandedOver(v, id, p)
    case Prepare(tok) =>
      // a token whose target took over is not prepared afresh
      Taken(v, tok) ==> tok in PruneCell(v.cells[v.drives[tok].src], v.now, LIMIT).records
    case Accept(tok) =>
      // the target is not itself handing the player over
      Knows(v, tok) && !Taken(v, tok) ==> !InFlight(v.cells[v.drives[tok].dst], v.drives[tok].player)
    case _ => true
  }

  /** Implies `Sole` while at most one cell answers. */
  predicate Exclusive(v: View, op: Op) {
    match op
    case Join(id, p) =>
      // no second join elsewhere
      forall other <- v.cells :: other != id ==> p !in v.cells[other].here
    case Prepare(tok) =>
      // no open handoff at the source is older than the limit
      Knows(v, tok) ==>
        forall k <- v.cells[v.drives[tok].src].records :: !Expired(v.cells[v.drives[tok].src].records[k], v.now, LIMIT)
    case Accept(tok) =>
      // the source still holds this handoff open
      Knows(v, tok) && !Taken(v, tok) ==> Open(v.cells[v.drives[tok].src], tok)
    case _ => true
  }

  // ---------------------------------------------------------------- the invariant

  /** A cell's records and arrivals belong to known drives, an open record's player
      is registered, and no player has two open records. */
  ghost predicate CellOk(drives: map<string, DriveView>, id: string, c: CellView) {
    "" !in c.here &&
    (forall tok <- c.records :: tok in drives && drives[tok].src == id && drives[tok].player == c.records[tok].player) &&
    (forall tok <- c.arrived :: tok in drives && drives[tok].dst == id) &&
    (forall tok <- c.records :: Open(c, tok) ==> c.records[tok].player in c.here) &&
    (forall j, k :: Open(c, j) && Open(c, k) && c.records[j].player == c.records[k].player ==> j == k)
  }

  predicate DriveInv(v: View, tok: string) {
    tok in v.drives && tok != "" && Knows(v, tok) &&
    var d := v.drives[tok];
    d.src != d.dst && d.dst != "" && d.player != "" && (d.accepted ==> Taken(v, tok))
  }

  ghost predicate Inv(v: View) {
    (forall id <- v.cells :: CellOk(v.drives, id, v.cells[id])) && (forall tok <- v.drives :: DriveInv(v, tok))
  }

  lemma InitialInv(v: View)
    requires Initial(v)
    ensures Inv(v) && NobodyLost(v) && OneAnswers(v)
  {
  }

  /** Drives may gain notes and companions without disturbing the cells. */
  ghost predicate Extends(d: map<string, DriveView>, e: map<string, DriveView>) {
    forall k <- d :: k in e && e[k].player == d[k].player && e[k].src == d[k].src && e[k].dst == d[k].dst
  }

  lemma ExtendKeeps(v: View, w: View)
    requires Inv(v) && w.cells == v.cells && Extends(v.drives, w.drives)
    requires forall k <- w.drives :: (k in v.drives && w.drives[k].accepted == v.drives[k].accepted) || DriveInv(w, k)
    ensures Inv(w)
  {
    forall id | id in w.cells ensures CellOk(w.drives, id, w.cells[id]) {
      assert CellOk(v.drives, id, v.cells[id]);
    }
    forall k | k in w.drives ensures DriveInv(w, k) {
      assert k in v.drives ==> DriveInv(v, k);
    }
  }

  lemma WithKeeps(v: View, id: string, c: CellView)
    requires Inv(v) && id in v.cells && CellOk(v.drives, id, c) && v.cells[id].arrived <= c.arrived
    ensures Inv(With(v, id, c))
  {
    hide CellOk;
    var w := With(v, id, c);
    forall tok | tok in w.drives ensures DriveInv(w, tok) {
      assert DriveInv(v, tok);
    }
  }

  lemma RosterCallsKeepOk(drives: map<string, DriveView>, id: string, c: CellView, p: string, on: bool)
    requires CellOk(drives, id, c)
    ensures CellOk(drives, id, JoinCell(c, p)) && CellOk(drives, id, LeaveCell(c, p))
    ensures CellOk(drives, id, c.(drain := on))
  {
  }

  lemma FinalizeKeepsOk(drives: map<string, DriveView>, id: string, c: CellView, p: string, tok: string)
    requires CellOk(drives, id, c)
    ensures CellOk(drives, id, FinalizeCell(c, p, tok))
  {
  }

  lemma PrepareKeepsOk(drives: map<string, DriveView>, id: string, c: CellView, p: string, tok: string, now: nat)
    requires CellOk(drives, id, c) && tok in drives && drives[tok].src == id && drives[tok].player == p
    ensures CellOk(drives, id, PrepareCell(c, p, tok, now, LIMIT))
  {
    var b := PruneCell(c, now, LIMIT);
    assert CellOk(drives, id, b);
    forall k | Open(b, k) && b.records[k].player == p ensures InFlight(b, p) {
      assert OpenFor(b, k, p);
    }
    hide PruneCell, InFlight;
  }

  lemma AcceptKeepsOk(drives: map<string, DriveView>, id: string, c: CellView, p: string, tok: string)
    requires CellOk(drives, id, c) && tok in drives && drives[tok].dst == id && p != ""
    ensures CellOk(drives, id, AcceptCell(c, p, tok))
  {
  }

  lemma StepKeepsInv(v: View, op: Op)
    requires Inv(v)
    ensures Inv(Step(v, op))
  {
    hide CellOk, PrepareCell, AcceptCell, FinalizeCell, LeaveCell, JoinCell, Inv;
    match op
    case Join(id, p) => if id in v.cells { CellCallKeeps(v, id, p, "", false); }
    case Leave(id, p) => if id in v.cells { CellCallKeeps(v, id, p, "", false); }
    case Drain(id, on) => if id in v.cells { CellCallKeeps(v, id, "", "", on); }
    case Finalize(tok) =>
      if Knows(v, tok) { CellCallKeeps(v, v.drives[tok].src, v.drives[tok].player, tok, false); }
    case Prepare(tok) => PrepareStepKeeps(v, tok);
    case Accept(tok) => AcceptStepKeeps(v, tok);
    case Start(_, _, _, _) => ExtendKeepsStart(v, op);
    case _ => SameKeeps(v, Step(v, op));
  }

  lemma SameKeeps(v: View, w: View)
    requires Inv(v) && w.cells == v.cells && w.drives == v.drives
    ensures Inv(w)
  {
    ExtendKeeps(v, w);
  }

  lemma CellCallKeeps(v: View, id: string, p: string, tok: string, on: bool)
    requires Inv(v) && id in v.cells
    ensures forall present :: Inv(With(v, id, JoinCell(v.cells[id], p)).(present := present))
    ensures forall present :: Inv(With(v, id, LeaveCell(v.cells[id], p)).(present := present))
    ensures Inv(With(v, id, v.cells[id].(drain := on)))
    ensures Inv(With(v, id, FinalizeCell(v.cells[id], p, tok)))
  {
    hide CellOk;
    var c := v.cells[id];
    RosterCallsKeepOk(v.drives, id, c, p, on);
    FinalizeKeepsOk(v.drives, id, c, p, tok);
    WithKeeps(v, id, JoinCell(c, p));
    WithKeeps(v, id, LeaveCell(c, p));
    WithKeeps(v, id, c.(drain := on));
    WithKeeps(v, id, FinalizeCell(c, p, tok));
    forall present
      ensures Inv(With(v, id, JoinCell(c, p)).(present := present)) && Inv(With(v, id, LeaveCell(c, p)).(present := present))
    {
      SameKeeps(With(v, id, JoinCell(c, p)), With(v, id, JoinCell(c, p)).(present := present));
      SameKeeps(With(v, id, LeaveCell(c, p)), With(v, id, LeaveCell(c, p)).(present := present));
    }
  }

  lemma ExtendKeepsStart(v: View, op: Op)
    requires Inv(v) && op.Start?
    ensures Inv(Step(v, op))
  {
    hide CellOk;
    ExtendKeeps(v, Step(v, op));
  }

  lemma PrepareStepKeeps(v: View, tok: string)
    requires Inv(v)
    ensures Inv(Step(v, Prepare(tok)))
  {
    hide CellOk;
    if Knows(v, tok) {
      var d := v.drives[tok];
      var c := PrepareCell(v.cells[d.src], d.player, tok, v.now, LIMIT);
      PrepareKeepsOk(v.drives, d.src, v.cells[d.src], d.player, tok, v.now);
      WithKeeps(v, d.src, c);
      ExtendKeeps(With(v, d.src, c), Step(v, Prepare(tok)));
    }
  }

  lemma AcceptStepKeeps(v: View, tok: string)
    requires Inv(v)
    ensures Inv(Step(v, Accept(tok)))
  {
    hide CellOk;
    if Knows(v, tok) && v.drives[tok].prepared {
      var d := v.drives[tok];
      assert DriveInv(v, tok);
      var c := AcceptCell(v.cells[d.dst], d.player, tok);
      AcceptKeepsOk(v.drives, d.dst, v.cells[d.dst], d.player, tok);
      WithKeeps(v, d.dst, c);
      var w := Step(v, Accept(tok));
      assert tok in c.arrived;
      assert DriveInv(w, tok);
      ExtendKeeps(With(v, d.dst, c), w);
    }
  }

  // ---------------------------------------------------------------- who answers after a step

  /** An open record was open before or was just prepared. */
  lemma OpenOrigin(v: View, op: Op, id: string, k: string, p: string)
    requires id in v.cells && OpenFor(Step(v, op).cells[id], k, p)
    ensures OpenFor(v.cells[id], k, p) ||
            (op == Prepare(k) && Knows(v, k) && v.drives[k].src == id && v.drives[k].player == p &&
             k !in PruneCell(v.cells[id], v.now, LIMIT).records)
  {
  }

  lemma ArrivalsStay(v: View, op: Op)
    requires !op.Accept?
    ensures Step(v, op).cells.Keys == v.cells.Keys
    ensures forall id <- v.cells :: Step(v, op).cells[id].arrived == v.cells[id].arrived
    ensures Extends(v.drives, Step(v, op).drives)
    ensures forall k <- Step(v, op).drives :: k in v.drives || (op.Start? && k == op.token && CanStart(v, op))
  {
  }

  /** Outside Accept, no drive becomes taken or stops being so. */
  lemma TakenStays(v: View, op: Op)
    requires Inv(v) && !op.Accept?
    ensures forall k :: Taken(Step(v, op), k) <==> Taken(v, k)
  {
    ArrivalsStay(v, op);
    forall id | id in v.cells ensures v.cells[id].arrived <= v.drives.Keys {
      assert CellOk(v.drives, id, v.cells[id]);
    }
    hide Step, Inv;
  }

  /** A first Accept makes exactly its own drive taken and registers its player at the target. */
  lemma AcceptEffect(v: View, tok: string)
    requires Lands(v, tok)
    ensures var w := Step(v, Accept(tok)); var d := v.drives[tok];
            (forall k :: Taken(w, k) <==> Taken(v, k) || k == tok) && w.present == v.present &&
            w.cells.Keys == v.cells.Keys &&
            (forall id <- v.cells :: w.cells[id].records == v.cells[id].records &&
               w.cells[id].here == if id == d.dst then v.cells[id].here + {d.player} else v.cells[id].here)
  {
  }

  /** Any other Accept moves nobody. */
  lemma AcceptAgain(v: View, tok: string)
    requires Inv(v) && !Lands(v, tok)
    ensures Step(v, Accept(tok)).cells == v.cells && Step(v, Accept(tok)).present == v.present
    ensures forall k :: Taken(Step(v, Accept(tok)), k) <==> Taken(v, k)
  {
    hide CellOk;
    if Knows(v, tok) && v.drives[tok].prepared {
      assert With(v, v.drives[tok].dst, v.cells[v.drives[tok].dst]).cells == v.cells;
    }
  }

  /** Whether a cell will answer after a call, told from the state before it. */
  ghost predicate WillAnswer(v: View, op: Op, x: string, q: string) {
    match op
    case Join(id, p) => Answers(v, x, q) || (x == id && q == p && Enters(v, id, p))
    case Leave(id, p) => Answers(v, x, q) && !(x == id && q == p)
    case Prepare(tok) =>
      if Knows(v, tok) && x == v.drives[tok].src
      then (Answers(v, x, q) || Forgets(v, tok, q)) && !(q == v.drives[tok].player && Taken(v, tok) && Opens(v, tok))
      else Answers(v, x, q)
    case Accept(tok) =>
      if !Lands(v, tok) || q != v.drives[tok].player then Answers(v, x, q)
      else if x == v.drives[tok].dst then !HandedOver(v, x, q)
      else Answers(v, x, q) && !OpenFor(v.cells[x], tok, q)
    case _ => Answers(v, x, q)
  }

  lemma SameAnswers(v: View, w: View, x: string, q: string)
    requires x in v.cells <==> x in w.cells
    requires x in v.cells ==> w.cells[x].here == v.cells[x].here && w.cells[x].records == v.cells[x].records
    requires forall k :: Taken(w, k) <==> Taken(v, k)
    ensures Answers(w, x, q) <==> Answers(v, x, q)
  {
    hide Taken;
  }

  lemma JoinAnswers(v: View, op: Op, x: string, q: string)
    requires Inv(v) && op.Join?
    ensures Answers(Step(v, op), x, q) <==> WillAnswer(v, op, x, q)
  {
    TakenStays(v, op);
    if x in v.cells {
      assert CellOk(v.drives, x, v.cells[x]);
    }
    hide Taken, Inv;
  }

  lemma LeaveAnswers(v: View, op: Op, x: string, q: string)
    requires Inv(v) && op.Leave?
    ensures Answers(Step(v, op), x, q) <==> WillAnswer(v, op, x, q)
  {
    TakenStays(v, op);
    LeaveCells(v, op, x);
    hide Taken, Inv, LeaveCell, CellOk, Step, HandedOver, OpenFor;
    if x in v.cells {
      NoUnnamed(v, x);
      LeaveSparesOthers(v.cells[x], op.player, q);
      if !(x == op.cell && q == op.player) {
        LikeAnswers(v, Step(v, op), x, q);
      }
    }
  }

  lemma LeaveCells(v: View, op: Op, x: string)
    requires op.Leave?
    ensures x in Step(v, op).cells <==> x in v.cells
    ensures x in v.cells ==> Step(v, op).cells[x] == if x == op.cell then LeaveCell(v.cells[x], op.player) else v.cells[x]
  {
    hide LeaveCell;
  }

  lemma NoUnnamed(v: View, x: string)
    requires Inv(v) && x in v.cells
    ensures "" !in v.cells[x].here
  {
    assert CellOk(v.drives, x, v.cells[x]);
  }

  /** A cell answers alike for a player whose registration and open records there are the same. */
  lemma LikeAnswers(v: View, w: View, x: string, q: string)
    requires x in v.cells && x in w.cells && (q in w.cells[x].here <==> q in v.cells[x].here)
    requires forall k :: OpenFor(w.cells[x], k, q) <==> OpenFor(v.cells[x], k, q)
    requires forall k :: Taken(w, k) <==> Taken(v, k)
    ensures Answers(w, x, q) <==> Answers(v, x, q)
  {
    hide Taken;
    assert forall k :: OpenFor(w.cells[x], k, q) ==> k in w.cells[x].records;
    assert forall k :: OpenFor(v.cells[x], k, q) ==> k in v.cells[x].records;
    hide OpenFor;
  }

  lemma LeaveSparesOthers(c: CellView, p: string, q: string)
    ensures q != p ==> (q in LeaveCell(c, p).here <==> q in c.here)
    ensures q != p ==> forall k :: OpenFor(LeaveCell(c, p), k, q) <==> OpenFor(c, k, q)
    ensures p != "" ==> p !in LeaveCell(c, p).here
    ensures p == "" ==> LeaveCell(c, p) == c
  {
  }

  lemma FinalizeAnswers(v: View, op: Op, x: string, q: string)
    requires Inv(v) && op.Finalize?
    ensures Answers(Step(v, op), x, q) <==> WillAnswer(v, op, x, q)
  {
    TakenStays(v, op);
    FinalizeCells(v, op.token, x);
    if Knows(v, op.token) && v.drives[op.token].accepted && x == v.drives[op.token].src {
      assert DriveInv(v, op.token);
      FinalizeAtSource(v, op.token, q);
    } else {
      hide *;
      FinalizeWill(v, op, x, q);
      SameAnswers(v, Step(v, op), x, q);
    }
  }

  lemma FinalizeWill(v: View, op: Op, x: string, q: string)
    requires op.Finalize?
    ensures op == Finalize(op.token) && (WillAnswer(v, op, x, q) <==> Answers(v, x, q))
  {
    hide Answers;
  }

  lemma FinalizeAtSource(v: View, tok: string, q: string)
    requires Inv(v) && Knows(v, tok) && v.drives[tok].accepted && Taken(v, tok)
    ensures Answers(Step(v, Finalize(tok)), v.drives[tok].src, q) <==> Answers(v, v.drives[tok].src, q)
  {
    var d := v.drives[tok];
    TakenStays(v, Finalize(tok));
    FinalizeCells(v, tok, d.src);
    FinalizeSparesOthers(v.cells[d.src], d.player, tok, q);
    hide Taken, Inv, FinalizeCell, CellOk, Step;
    if q != d.player || !OpenFor(v.cells[d.src], tok, d.player) {
      LikeAnswers(v, Step(v, Finalize(tok)), d.src, q);
    } else {
      assert HandedOver(v, d.src, d.player);
    }
  }

  lemma FinalizeCells(v: View, tok: string, x: string)
    ensures x in Step(v, Finalize(tok)).cells <==> x in v.cells
    ensures x in v.cells ==>
              Step(v, Finalize(tok)).cells[x] ==
              if Knows(v, tok) && v.drives[tok].accepted && x == v.drives[tok].src
              then FinalizeCell(v.cells[x], v.drives[tok].player, tok) else v.cells[x]
  {
    hide FinalizeCell;
  }

  lemma FinalizeSparesOthers(c: CellView, p: string, tok: string, q: string)
    ensures q != p ==> (q in FinalizeCell(c, p, tok).here <==> q in c.here)
    ensures q != p ==> forall k :: OpenFor(FinalizeCell(c, p, tok), k, q) <==> OpenFor(c, k, q)
    ensures OpenFor(c, tok, p) ==> p !in FinalizeCell(c, p, tok).here
    ensures !OpenFor(c, tok, p) ==> FinalizeCell(c, p, tok) == c
  {
  }

  /** A drive's token is only ever recorded at its source, for its player. */
  lemma RecordedAtSource(v: View, tok: string, id: string, q: string)
    requires Inv(v) && id in v.cells && OpenFor(v.cells[id], tok, q)
    ensures tok in v.drives && v.drives[tok].src == id && v.drives[tok].player == q
  {
    assert CellOk(v.drives, id, v.cells[id]);
  }

  lemma AcceptAnswers(v: View, op: Op, x: string, q: string)
    requires Inv(v) && op.Accept?
    ensures Answers(Step(v, op), x, q) <==> WillAnswer(v, op, x, q)
  {
    hide *;
    AcceptOp(v, op, x, q);
    if Lands(v, op.token) {
      LandingAnswers(v, op.token, x, q);
    } else {
      AcceptAgain(v, op.token);
      SameAnswers(v, Step(v, op), x, q);
    }
  }

  lemma AcceptOp(v: View, op: Op, x: string, q: string)
    requires op.Accept?
    ensures op == Accept(op.token)
    ensures !Lands(v, op.token) ==> (WillAnswer(v, op, x, q) <==> Answers(v, x, q))
  {
  }

  lemma LandingAnswers(v: View, tok: string, x: string, q: string)
    requires Inv(v) && Lands(v, tok)
    ensures Answers(Step(v, Accept(tok)), x, q) <==> WillAnswer(v, Accept(tok), x, q)
  {
    hide Step, Taken, Inv, Lands, HandedOver, OpenFor;
    AcceptEffect(v, tok);
    LandingDrive(v, tok);
    if x in v.cells {
      TakenMore(v, Step(v, Accept(tok)), tok, x, q);
      if OpenFor(v.cells[x], tok, q) {
        RecordedAtSource(v, tok, x, q);
      }
    }
  }

  lemma LandingDrive(v: View, tok: string)
    requires Inv(v) && Lands(v, tok)
    ensures Knows(v, tok) && v.drives[tok].src != v.drives[tok].dst
  {
    assert DriveInv(v, tok);
  }

  lemma TakenMore(v: View, w: View, tok: string, x: string, q: string)
    requires x in v.cells && x in w.cells && w.cells[x].records == v.cells[x].records
    requires forall k :: Taken(w, k) <==> Taken(v, k) || k == tok
    ensures HandedOver(w, x, q) <==> HandedOver(v, x, q) || OpenFor(v.cells[x], tok, q)
  {
    hide Taken;
  }

  /** What a Prepare leaves open: the young records, and the one it opens. */
  lemma OpenAfterPrepare(c: CellView, p: string, tok: string, now: nat, k: string, q: string)
    ensures var b := PruneCell(c, now, LIMIT);
            OpenFor(PrepareCell(c, p, tok, now, LIMIT), k, q) <==>
              (OpenFor(c, k, q) && !Expired(c.records[k], now, LIMIT)) ||
              (k == tok && q == p && tok !in b.records && p in b.here && !InFlight(b, p))
  {
    hide InFlight;
  }

  lemma PrepareAnswers(v: View, op: Op, x: string, q: string)
    requires Inv(v) && op.Prepare?
    ensures Answers(Step(v, op), x, q) <==> WillAnswer(v, op, x, q)
  {
    hide *;
    TakenStays(v, op);
    PrepareOp(v, op, x, q);
    if Knows(v, op.token) && x == v.drives[op.token].src {
      PrepareAtSource(v, op.token, x, q);
    } else {
      PrepareElsewhere(v, op.token, x);
      SameAnswers(v, Step(v, op), x, q);
    }
  }

  lemma PrepareOp(v: View, op: Op, x: string, q: string)
    requires op.Prepare?
    ensures op == Prepare(op.token) && Knows(v, op.token) ==> op.token in v.drives
    ensures !(Knows(v, op.token) && x == v.drives[op.token].src) ==> (WillAnswer(v, op, x, q) <==> Answers(v, x, q))
  {
  }

  lemma PrepareAtSource(v: View, tok: string, x: string, q: string)
    requires Inv(v) && Knows(v, tok) && x == v.drives[tok].src
    ensures Answers(Step(v, Prepare(tok)), x, q) <==> WillAnswer(v, Prepare(tok), x, q)
  {
    TakenStays(v, Prepare(tok));
    PrepareWhere(v, tok, x);
    OpenOnlyOne(v, x, q);
    hide Step, Taken, Inv, HandedOver, Opens, PruneCell, PrepareCell;
    HandedOverAfterPrepare(v, Step(v, Prepare(tok)), tok, x, q);
    if Forgets(v, tok, q) {
      var k :| OpenFor(v.cells[x], k, q) && Expired(v.cells[x].records[k], v.now, LIMIT) && Taken(v, k);
    }
  }

  lemma HandedOverAfterPrepare(v: View, w: View, tok: string, x: string, q: string)
    requires Knows(v, tok) && x == v.drives[tok].src && x in w.cells && forall k :: Taken(w, k) <==> Taken(v, k)
    requires w.cells[x] == PrepareCell(v.cells[x], v.drives[tok].player, tok, v.now, LIMIT)
    requires forall j, k :: OpenFor(v.cells[x], j, q) && OpenFor(v.cells[x], k, q) ==> j == k
    ensures HandedOver(w, x, q) <==>
              (HandedOver(v, x, q) && !Forgets(v, tok, q)) || (q == v.drives[tok].player && Taken(v, tok) && Opens(v, tok))
  {
    var c, p := v.cells[x], v.drives[tok].player;
    forall k ensures OpenFor(w.cells[x], k, q) <==>
      (OpenFor(c, k, q) && !Expired(c.records[k], v.now, LIMIT)) || (k == tok && q == p && Opens(v, tok))
    {
      OpenAfterPrepare(c, p, tok, v.now, k, q);
    }
    hide Taken, Expired, Opens, PruneCell, PrepareCell, Open;
    if HandedOver(w, x, q) {
      var k :| OpenFor(w.cells[x], k, q) && Taken(w, k);
    }
  }

  lemma PrepareWhere(v: View, tok: string, x: string)
    requires Knows(v, tok) && x == v.drives[tok].src
    ensures x in Step(v, Prepare(tok)).cells && Step(v, Prepare(tok)).cells[x].here == v.cells[x].here
    ensures Step(v, Prepare(tok)).cells[x] == PrepareCell(v.cells[x], v.drives[tok].player, tok, v.now, LIMIT)
  {
  }

  lemma PrepareElsewhere(v: View, tok: string, x: string)
    requires Knows(v, tok) ==> x != v.drives[tok].src
    ensures x in Step(v, Prepare(tok)).cells <==> x in v.cells
    ensures x in v.cells ==> Step(v, Prepare(tok)).cells[x] == v.cells[x]
  {
  }

  /** Open records are of registered players, at most one each. */
  lemma OpenOnlyOne(v: View, id: string, q: string)
    requires Inv(v) && id in v.cells
    ensures forall k :: OpenFor(v.cells[id], k, q) ==> q in v.cells[id].here
    ensures forall j, k :: OpenFor(v.cells[id], j, q) && OpenFor(v.cells[id], k, q) ==> j == k
  {
    assert CellOk(v.drives, id, v.cells[id]);
  }

  lemma AnswersAfter(v: View, op: Op, x: string, q: string)
    requires Inv(v)
    ensures Answers(Step(v, op), x, q) <==> WillAnswer(v, op, x, q)
  {
    hide Step, WillAnswer, Inv;
    match op
    case Join(_, _) => JoinAnswers(v, op, x, q);
    case Leave(_, _) => LeaveAnswers(v, op, x, q);
    case Prepare(_) => PrepareAnswers(v, op, x, q);
    case Accept(_) => AcceptAnswers(v, op, x, q);
    case Finalize(_) => FinalizeAnswers(v, op, x, q);
    case _ => QuietAnswers(v, op, x, q);
  }

  lemma QuietAnswers(v: View, op: Op, x: string, q: string)
    requires Inv(v) && (op.Drain? || op.Start? || op.Wait? || op.Skip?)
    ensures Answers(Step(v, op), x, q) <==> WillAnswer(v, op, x, q)
  {
    QuietCells(v, op, x);
    hide *;
    TakenStays(v, op) by { NotAccept(op); }
    QuietWill(v, op, x, q);
    SameAnswers(v, Step(v, op), x, q);
  }

  lemma NotAccept(op: Op)
    requires op.Drain? || op.Start? || op.Wait? || op.Skip?
    ensures !op.Accept?
  {
  }

  lemma QuietWill(v: View, op: Op, x: string, q: string)
    requires op.Drain? || op.Start? || op.Wait? || op.Skip?
    ensures WillAnswer(v, op, x, q) <==> Answers(v, x, q)
  {
    hide Answers;
  }

  lemma QuietCells(v: View, op: Op, x: string)
    requires op.Drain? || op.Start? || op.Wait? || op.Skip?
    ensures x in v.cells <==> x in Step(v, op).cells
    ensures x in v.cells ==> Step(v, op).cells[x].here == v.cells[x].here && Step(v, op).cells[x].records == v.cells[x].records
  {
  }

  lemma PresentAfter(v: View, op: Op)
    ensures Step(v, op).present ==
            match op
            case Join(id, p) => if id in v.cells && JoinSucceeds(v.cells[id], p) then v.present + {p} else v.present
            case Leave(id, p) => if id in v.cells && !AnswersElsewhere(v, id, p) then v.present - {p} else v.present
            case _ => v.present
  {
  }

  // ---------------------------------------------------------------- nobody is lost

  ghost predicate WillBeAnswered(v: View, op: Op, q: string) {
    exists x :: WillAnswer(v, op, x, q)
  }

  lemma AnsweredAfter(v: View, op: Op, q: string)
    requires Inv(v)
    ensures Answered(Step(v, op), q) <==> WillBeAnswered(v, op, q)
  {
    hide Step, Inv, WillAnswer, Answers;
    forall x ensures Answers(Step(v, op), x, q) <==> WillAnswer(v, op, x, q) {
      AnswersAfter(v, op, x, q);
    }
  }

  /** The guard is exact: a call takes nobody's last answering cell away, a Leave there apart, if and only if it is safe. */
  lemma StepLosesNobody(v: View, op: Op)
    requires Inv(v)
    ensures LosesNobody(v, op) <==> Safe(v, op)
  {
    var w := Step(v, op);
    forall q ensures Answered(w, q) <==> WillBeAnswered(v, op, q) {
      AnsweredAfter(v, op, q);
    }
    KeepsAnswered(v, op);
    hide Step, Inv, Answered, WillBeAnswered, Safe, JoinsNow, LeavesLast;
  }

  /** The same, told from the state before. */
  ghost predicate WillLoseNobody(v: View, op: Op) {
    forall q | Answered(v, q) || JoinsNow(v, op, q) :: LeavesLast(v, op, q) || WillBeAnswered(v, op, q)
  }

  lemma KeepsAnswered(v: View, op: Op)
    requires Inv(v)
    ensures WillLoseNobody(v, op) <==> Safe(v, op)
  {
    hide Step, Inv;
    match op
    case Join(id, p) => JoinKeepsAnswered(v, id, p);
    case Prepare(tok) => PrepareKeepsAnswered(v, tok);
    case Accept(tok) => AcceptKeepsAnswered(v, tok);
    case Leave(id, p) => LeaveKeepsAnswered(v, id, p);
    case _ => OthersKeepAnswered(v, op);
  }

  lemma OthersKeepAnswered(v: View, op: Op)
    requires op.Drain? || op.Start? || op.Wait? || op.Skip? || op.Finalize?
    ensures WillLoseNobody(v, op) && Safe(v, op)
  {
    hide Answers;
    forall q | Answered(v, q) ensures WillBeAnswered(v, op, q) {
      var x :| Answers(v, x, q);
      assert WillAnswer(v, op, x, q);
    }
  }

  lemma LeaveKeepsAnswered(v: View, id: string, p: string)
    ensures WillLoseNobody(v, Leave(id, p)) && Safe(v, Leave(id, p))
  {
    var op := Leave(id, p);
    hide HandedOver;
    forall q | Answered(v, q) && !LeavesLast(v, op, q) ensures WillBeAnswered(v, op, q) {
      var x :| Answers(v, x, q) && (q == p ==> x != id);
      assert WillAnswer(v, op, x, q);
    }
  }

  lemma JoinKeepsAnswered(v: View, id: string, p: string)
    requires Inv(v)
    ensures WillLoseNobody(v, Join(id, p)) <==> Safe(v, Join(id, p))
  {
    var op := Join(id, p);
    hide Step, Inv, HandedOver, Answered, WillBeAnswered, JoinSucceeds;
    forall q | Answered(v, q) ensures WillBeAnswered(v, op, q) {
      JoinForgetsNobody(v, id, p, q);
    }
    if id in v.cells {
      JoinedIsAnswered(v, id, p);
    }
    assert JoinsNow(v, op, p) <==> id in v.cells && JoinSucceeds(v.cells[id], p);
  }

  lemma JoinForgetsNobody(v: View, id: string, p: string, q: string)
    requires Answered(v, q)
    ensures WillBeAnswered(v, Join(id, p), q)
  {
    hide HandedOver;
    var x :| Answers(v, x, q);
    assert WillAnswer(v, Join(id, p), x, q);
  }

  /** The joined player is answered for, unless the cell had handed them over and nobody else answers. */
  lemma JoinedIsAnswered(v: View, id: string, p: string)
    requires Inv(v) && id in v.cells
    ensures JoinSucceeds(v.cells[id], p) && !HandedOver(v, id, p) ==> WillBeAnswered(v, Join(id, p), p)
    ensures HandedOver(v, id, p) ==> JoinSucceeds(v.cells[id], p) && (WillBeAnswered(v, Join(id, p), p) ==> Answered(v, p))
  {
    HandedOverIsHere(v, id, p);
    hide Inv, HandedOver;
    if JoinSucceeds(v.cells[id], p) && !HandedOver(v, id, p) {
      assert WillAnswer(v, Join(id, p), id, p);
    }
  }

  lemma HandedOverIsHere(v: View, id: string, p: string)
    requires Inv(v) && id in v.cells
    ensures HandedOver(v, id, p) ==> p in v.cells[id].here && p != ""
  {
    assert CellOk(v.drives, id, v.cells[id]);
  }

  lemma PrepareKeepsAnswered(v: View, tok: string)
    ensures WillLoseNobody(v, Prepare(tok)) <==> Safe(v, Prepare(tok))
  {
    var op := Prepare(tok);
    hide HandedOver, Opens, Forgets, Taken;
    forall q | Answered(v, q) && !(Knows(v, tok) && q == v.drives[tok].player && Taken(v, tok) && Opens(v, tok))
      ensures WillBeAnswered(v, op, q)
    {
      var x :| Answers(v, x, q);
      assert WillAnswer(v, op, x, q);
    }
    if Knows(v, tok) && Taken(v, tok) && Opens(v, tok) {
      var q := v.drives[tok].player;
      assert forall x :: WillAnswer(v, op, x, q) <==> x != v.drives[tok].src && Answers(v, x, q);
    }
  }

  lemma AcceptKeepsAnswered(v: View, tok: string)
    requires Inv(v)
    ensures WillLoseNobody(v, Accept(tok)) <==> Safe(v, Accept(tok))
  {
    var op := Accept(tok);
    hide Inv, HandedOver, Taken;
    forall q | Answered(v, q) && !(Lands(v, tok) && q == v.drives[tok].player)
      ensures WillBeAnswered(v, op, q)
    {
      var x :| Answers(v, x, q);
      assert WillAnswer(v, op, x, q);
    }
    if Lands(v, tok) {
      var q, dst := v.drives[tok].player, v.drives[tok].dst;
      if !HandedOver(v, dst, q) {
        assert WillAnswer(v, op, dst, q);
      } else {
        assert forall x :: WillAnswer(v, op, x, q) <==> x != dst && Answers(v, x, q) && !OpenFor(v.cells[x], tok, q);
      }
    }
  }

  /** As long as calls lose nobody, whoever joined and has not left the last answering cell is answered for. */
  lemma StepKeepsPresent(v: View, op: Op)
    requires NobodyLost(v) && LosesNobody(v, op)
    ensures NobodyLost(Step(v, op))
  {
    PresentAfter(v, op);
    hide Step, JoinSucceeds, Answered, AnswersElsewhere;
    forall q | q in Step(v, op).present ensures Answered(Step(v, op), q) {
      assert q in v.present || JoinsNow(v, op, q);
      assert !LeavesLast(v, op, q);
    }
  }

  ghost predicate NeverLoses(v: View, ops: seq<Op>)
    decreases |ops|
  {
    ops != [] ==> LosesNobody(v, ops[0]) && NeverLoses(Step(v, ops[0]), ops[1..])
  }

  /** Over a whole run nobody's last answering cell is ever taken away, their Leave
      there apart, if and only if every call is safe; then whoever joined and has
      not left the last cell that answers is answered for. */
  lemma {:induction false} RunLosesNobody(v: View, ops: seq<Op>)
    requires Inv(v)
    ensures Inv(Run(v, ops)) && (NeverLoses(v, ops) <==> SafeRun(v, ops))
    ensures NobodyLost(v) && SafeRun(v, ops) ==> NobodyLost(Run(v, ops))
    decreases |ops|
  {
    hide Inv, Step, NobodyLost, LosesNobody, Safe;
    if ops != [] {
      StepKeepsInv(v, ops[0]);
      StepLosesNobody(v, ops[0]);
      if Safe(v, ops[0]) && NobodyLost(v) {
        StepKeepsPresent(v, ops[0]);
      }
      RunLosesNobody(Step(v, ops[0]), ops[1..]);
    }
  }

  lemma {:induction false} RunKeepsInv(v: View, ops: seq<Op>)
    requires Inv(v)
    ensures Inv(Run(v, ops))
    decreases |ops|
  {
    hide Inv, Step;
    if ops != [] {
      StepKeepsInv(v, ops[0]);
      RunKeepsInv(Step(v, ops[0]), ops[1..]);
    }
  }

  lemma CarefulIsSafe(v: View, op: Op)
    requires Careful(v, op)
    ensures Safe(v, op)
  {
    hide Taken, PruneCell;
  }

  // ---------------------------------------------------------------- nobody is active twice

  /** The guard is exact: a call keeps at most one cell answering for each player if and only if it meets `Sole`. */
  lemma StepActivatesOnce(v: View, op: Op)
    requires Inv(v) && OneAnswers(v)
    ensures OneAnswers(Step(v, op)) <==> Sole(v, op)
  {
    forall x, q ensures Answers(Step(v, op), x, q) <==> WillAnswer(v, op, x, q) {
      AnswersAfter(v, op, x, q);
    }
    hide Step, Inv;
    match op
    case Join(id, p) => JoinAnswersOnce(v, id, p);
    case Prepare(tok) => PrepareAnswersOnce(v, tok);
    case Accept(tok) => AcceptAnswersOnce(v, tok);
    case _ => OthersAnswerOnce(v, op);
  }

  ghost predicate WillAnswerOnce(v: View, op: Op) {
    forall p, a, b :: WillAnswer(v, op, a, p) && WillAnswer(v, op, b, p) ==> a == b
  }

  lemma OthersAnswerOnce(v: View, op: Op)
    requires OneAnswers(v) && !op.Join? && !op.Prepare? && !op.Accept?
    ensures WillAnswerOnce(v, op) && Sole(v, op)
  {
    hide Answers;
  }

  lemma JoinAnswersOnce(v: View, id: string, p: string)
    requires OneAnswers(v)
    ensures WillAnswerOnce(v, Join(id, p)) <==> Sole(v, Join(id, p))
  {
    hide HandedOver;
    var op := Join(id, p);
    if Enters(v, id, p) {
      assert WillAnswer(v, op, id, p);
      if x :| Answers(v, x, p) {
        assert WillAnswer(v, op, x, p);
      }
    }
  }

  lemma PrepareAnswersOnce(v: View, tok: string)
    requires OneAnswers(v)
    ensures WillAnswerOnce(v, Prepare(tok)) <==> Sole(v, Prepare(tok))
  {
    var op := Prepare(tok);
    if Knows(v, tok) {
      forall q | Forgets(v, tok, q) ensures !Answers(v, v.drives[tok].src, q) {
        ForgottenDoNotAnswer(v, tok, q);
      }
      hide Answers, Opens, Forgets, Taken;
      var src := v.drives[tok].src;
      forall q | Forgets(v, tok, q) && !(q == v.drives[tok].player && Taken(v, tok) && Opens(v, tok)) && Answered(v, q)
        ensures !WillAnswerOnce(v, op)
      {
        var x :| Answers(v, x, q);
        assert WillAnswer(v, op, src, q) && WillAnswer(v, op, x, q);
      }
      if Sole(v, op) {
        forall q, a, b | WillAnswer(v, op, a, q) && WillAnswer(v, op, b, q) ensures a == b {
        }
      }
    } else {
      hide Answers;
    }
  }

  lemma ForgottenDoNotAnswer(v: View, tok: string, q: string)
    requires Knows(v, tok) && Forgets(v, tok, q)
    ensures !Answers(v, v.drives[tok].src, q)
  {
    var c := v.cells[v.drives[tok].src];
    var k :| k in c.records && OpenFor(c, k, q) && Expired(c.records[k], v.now, LIMIT) && Taken(v, k);
  }

  lemma AcceptAnswersOnce(v: View, tok: string)
    requires OneAnswers(v)
    ensures WillAnswerOnce(v, Accept(tok)) <==> Sole(v, Accept(tok))
  {
    var op := Accept(tok);
    if Lands(v, tok) {
      var q, dst := v.drives[tok].player, v.drives[tok].dst;
      hide Taken, HandedOver, OpenFor;
      if !HandedOver(v, dst, q) {
        assert WillAnswer(v, op, dst, q);
        if x :| Answers(v, x, q) && x != dst && !OpenFor(v.cells[x], tok, q) {
          assert WillAnswer(v, op, x, q);
        }
      }
    } else {
      hide Answers;
    }
  }

  ghost predicate AlwaysOne(v: View, ops: seq<Op>)
    decreases |ops|
  {
    OneAnswers(v) && (ops != [] ==> AlwaysOne(Step(v, ops[0]), ops[1..]))
  }

  /** Over a whole run at most one cell ever answers for each player if and only if every call meets `Sole`. */
  lemma {:induction false} RunActivatesOnce(v: View, ops: seq<Op>)
    requires Inv(v) && OneAnswers(v)
    ensures Inv(Run(v, ops)) && (AlwaysOne(v, ops) <==> SoleRun(v, ops))
    ensures SoleRun(v, ops) ==> OneAnswers(Run(v, ops))
    decreases |ops|
  {
    hide Inv, Step, OneAnswers, Sole;
    if ops != [] {
      StepKeepsInv(v, ops[0]);
      StepActivatesOnce(v, ops[0]);
      if Sole(v, ops[0]) {
        RunActivatesOnce(Step(v, ops[0]), ops[1..]);
      } else {
        RunKeepsInv(Step(v, ops[0]), ops[1..]);
      }
    }
  }

  lemma ExclusiveIsSole(v: View, op: Op)
    requires Inv(v) && OneAnswers(v) && Exclusive(v, op)
    ensures Sole(v, op)
  {
    if op.Accept? && Lands(v, op.token) {
      SourceAnswers(v, op.token);
    }
    hide Inv, Taken, HandedOver;
  }

  /** While the source holds the handoff open and untaken, the source answers for the player. */
  lemma SourceAnswers(v: View, tok: string)
    requires Inv(v) && Knows(v, tok) && !Taken(v, tok) && Open(v.cells[v.drives[tok].src], tok)
    ensures Answers(v, v.drives[tok].src, v.drives[tok].player)
    ensures OpenFor(v.cells[v.drives[tok].src], tok, v.drives[tok].player)
  {
    assert CellOk(v.drives, v.drives[tok].src, v.cells[v.drives[tok].src]);
  }

  // ---------------------------------------------------------------- a finished handoff stays finished

  /** The source has no open record under the token. */
  predicate Closed(v: View, tok: string) {
    Knows(v, tok) && !Open(v.cells[v.drives[tok].src], tok)
  }

  /** Nowhere in the run is the token prepared after its record was lost. */
  predicate NeverReopened(v: View, tok: string, ops: seq<Op>)
    decreases |ops|
  {
    ops != [] ==>
      (ops[0] == Prepare(tok) && Knows(v, tok) ==> tok in PruneCell(v.cells[v.drives[tok].src], v.now, LIMIT).records) &&
      NeverReopened(Step(v, ops[0]), tok, ops[1..])
  }

  lemma ClosedStays(v: View, op: Op, tok: string)
    requires Inv(v) && Closed(v, tok)
    requires op == Prepare(tok) ==> tok in PruneCell(v.cells[v.drives[tok].src], v.now, LIMIT).records
    ensures Closed(Step(v, op), tok)
  {
    var w, id := Step(v, op), v.drives[tok].src;
    DrivesStay(v, op, tok);
    if Open(w.cells[id], tok) {
      OpenOrigin(v, op, id, tok, w.cells[id].records[tok].player);
    }
  }

  lemma DrivesStay(v: View, op: Op, tok: string)
    requires Knows(v, tok)
    ensures Knows(Step(v, op), tok) && Step(v, op).drives[tok].src == v.drives[tok].src
    ensures Step(v, op).drives[tok].player == v.drives[tok].player
  {
  }

  /** A repeated Finalize of a finished handoff changes nothing, whatever happened
      since, in particular when the player has come back to the source. */
  lemma {:induction false} FinalizeOnlyOnce(v: View, tok: string, ops: seq<Op>)
    requires Inv(v) && Closed(v, tok) && NeverReopened(v, tok, ops)
    ensures Closed(Run(v, ops), tok) && Step(Run(v, ops), Finalize(tok)) == Run(v, ops)
    decreases |ops|
  {
    hide Inv, Closed;
    if ops == [] {
      FinalizeClosed(v, tok);
    } else {
      KnowsClosed(v, tok);
      hide Step;
      ClosedStays(v, ops[0], tok);
      StepKeepsInv(v, ops[0]);
      FinalizeOnlyOnce(Step(v, ops[0]), tok, ops[1..]);
    }
  }

  lemma KnowsClosed(v: View, tok: string)
    requires Closed(v, tok)
    ensures Knows(v, tok)
  {
  }

  lemma FinalizeClosed(v: View, tok: string)
    requires Closed(v, tok)
    ensures Step(v, Finalize(tok)) == v
  {
    assert v.cells[v.drives[tok].src := v.cells[v.drives[tok].src]] == v.cells;
  }
}
