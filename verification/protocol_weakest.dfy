/** Why the two conditions that the guards keep are the right ones: each is the
    weakest condition that is safe against what drivers may still send. */
module ProtocolWeakest {
  import opened Protocol

  // ---------------------------------------------------------------- being answered for is the weakest safe condition

  /** Whoever took a player over has told the driver. */
  ghost predicate Noted(v: View) {
    forall tok :: Taken(v, tok) ==> v.drives[tok].accepted
  }

  lemma StepKeepsNoted(v: View, op: Op)
    requires Inv(v) && Noted(v)
    ensures Noted(Step(v, op))
  {
    AcceptedStays(v, op);
    if op.Accept? {
      hide Step, Inv, Taken;
      if Lands(v, op.token) {
        AcceptEffect(v, op.token);
      } else {
        AcceptAgain(v, op.token);
      }
    } else {
      hide Step, Inv, Taken;
      TakenStays(v, op);
    }
    KnowsTaken(v);
  }

  lemma KnowsTaken(v: View)
    ensures forall tok :: Taken(v, tok) ==> tok in v.drives
  {
  }

  /** Affirmative answers are not forgotten, and a landing Accept is one. */
  lemma AcceptedStays(v: View, op: Op)
    ensures forall tok <- v.drives :: tok in Step(v, op).drives && (v.drives[tok].accepted ==> Step(v, op).drives[tok].accepted)
    ensures op.Accept? && Lands(v, op.token) ==> op.token in Step(v, op).drives && Step(v, op).drives[op.token].accepted
  {
    hide Taken, PrepareCell, AcceptCell, FinalizeCell, LeaveCell, JoinCell, PrepareSucceeds;
  }

  lemma {:induction false} RunKeepsNoted(v: View, ops: seq<Op>)
    requires Inv(v) && Noted(v)
    ensures Noted(Run(v, ops))
    decreases |ops|
  {
    hide Inv, Step, Noted;
    if ops != [] {
      StepKeepsInv(v, ops[0]);
      StepKeepsNoted(v, ops[0]);
      RunKeepsNoted(Step(v, ops[0]), ops[1..]);
    }
  }

  /** The pending Finalizes of these tokens, in order. */
  function Finalizes(toks: seq<string>): (ops: seq<Op>)
    ensures |ops| == |toks|
  {
    if toks == [] then [] else [Finalize(toks[0])] + Finalizes(toks[1..])
  }

  predicate Registered(v: View, p: string) {
    exists id <- v.cells :: p in v.cells[id].here
  }

  function Holders(v: View, p: string): set<string> {
    set id <- v.cells | p in v.cells[id].here
  }

  lemma FinalizeStepEffect(v: View, tok: string, p: string)
    requires Inv(v) && Noted(v)
    ensures Inv(Step(v, Finalize(tok))) && Noted(Step(v, Finalize(tok)))
    ensures Answered(Step(v, Finalize(tok)), p) <==> Answered(v, p)
  {
    hide Inv, Step, Noted;
    StepKeepsInv(v, Finalize(tok));
    StepKeepsNoted(v, Finalize(tok));
    forall x ensures Answers(Step(v, Finalize(tok)), x, p) <==> Answers(v, x, p) {
      AnswersAfter(v, Finalize(tok), x, p);
    }
  }

  /** No Finalize takes away the last cell that answers. */
  lemma {:induction false} FinalizesKeepAnswered(v: View, p: string, toks: seq<string>)
    requires Inv(v) && Noted(v) && Answered(v, p)
    ensures Answered(Run(v, Finalizes(toks)), p)
    decreases |toks|
  {
    hide Inv, Step, Noted, Answered;
    if toks != [] {
      FinalizeStepEffect(v, toks[0], p);
      FinalizesKeepAnswered(Step(v, Finalize(toks[0])), p, toks[1..]);
      assert Finalizes(toks)[0] == Finalize(toks[0]) && Finalizes(toks)[1..] == Finalizes(toks[1..]);
    }
  }

  /** A holder that does not answer loses the player to one of the pending Finalizes. */
  lemma PendingFinalize(v: View, id: string, p: string) returns (tok: string)
    requires Inv(v) && Noted(v) && id in Holders(v, p) && !Answers(v, id, p)
    ensures Holders(Step(v, Finalize(tok)), p) == Holders(v, p) - {id}
  {
    hide *;
    tok := PendingToken(v, id, p);
    var w := Step(v, Finalize(tok));
    FinalizeSparesOthers(v.cells[id], p, tok, p);
    forall x ensures x in Holders(w, p) <==> x in Holders(v, p) - {id} {
      FinalizeCells(v, tok, x);
      HoldersMean(v, x, p);
      HoldersMean(w, x, p);
    }
  }

  lemma PendingToken(v: View, id: string, p: string) returns (tok: string)
    requires Inv(v) && Noted(v) && id in Holders(v, p) && !Answers(v, id, p)
    ensures id in v.cells && OpenFor(v.cells[id], tok, p) && Knows(v, tok)
    ensures v.drives[tok].src == id && v.drives[tok].player == p && v.drives[tok].accepted
  {
    tok :| tok in v.cells[id].records && OpenFor(v.cells[id], tok, p) && Taken(v, tok);
    RecordedAtSource(v, tok, id, p);
    hide Inv;
  }

  lemma HoldersMean(v: View, x: string, p: string)
    ensures x in Holders(v, p) <==> x in v.cells && p in v.cells[x].here
  {
  }

  lemma {:induction false} DrainAway(v: View, p: string) returns (toks: seq<string>)
    requires Inv(v) && Noted(v) && !Answered(v, p)
    ensures !Registered(Run(v, Finalizes(toks)), p)
    decreases |Holders(v, p)|
  {
    hide Inv, Noted, Step;
    if id :| id in Holders(v, p) {
      var tok := PendingFinalize(v, id, p);
      FinalizeStepEffect(v, tok, p);
      var rest := DrainAway(Step(v, Finalize(tok)), p);
      toks := [tok] + rest;
      assert toks[1..] == rest;
      assert Finalizes(toks)[0] == Finalize(tok) && Finalizes(toks)[1..] == Finalizes(rest);
    } else {
      toks := [];
      assert forall id <- v.cells :: id !in Holders(v, p);
    }
  }

  /** These Finalizes leave the player registered somewhere. */
  ghost predicate Survives(v: View, p: string, toks: seq<string>) {
    Registered(Run(v, Finalizes(toks)), p)
  }

  /** The weakest condition that is safe: a player is answered for if and only if
      no run of pending Finalizes, which any driver may send at any time, leaves
      them registered nowhere. */
  lemma AnsweredIsWeakest(v: View, p: string)
    requires Inv(v) && Noted(v)
    ensures Answered(v, p) <==> forall toks: seq<string> :: Survives(v, p, toks)
  {
    hide Inv, Noted, Run;
    if Answered(v, p) {
      forall toks: seq<string> ensures Survives(v, p, toks) {
        FinalizesKeepAnswered(v, p, toks);
      }
    } else {
      var toks := DrainAway(v, p);
      assert !Survives(v, p, toks);
    }
  }

  // ---------------------------------------------------------------- answering once is the weakest exclusive condition

  /** Registered and not being handed over: the player may act here. */
  predicate Active(v: View, id: string, p: string) {
    id in v.cells && p in v.cells[id].here && !InFlight(v.cells[id], p)
  }

  ghost predicate AnswersOnce(v: View, p: string) {
    forall a, b :: Answers(v, a, p) && Answers(v, b, p) ==> a == b
  }

  ghost predicate ActiveOnce(v: View, p: string) {
    forall a, b :: Active(v, a, p) && Active(v, b, p) ==> a == b
  }

  /** Calls that only let time pass and old handoffs of the player expire: waiting,
      and handoffs of other players, as long as no takeover of this one is forgotten. */
  predicate Patient(v: View, op: Op, p: string) {
    op.Wait? || op.Start? ||
    (op.Prepare? && (Knows(v, op.token) ==> v.drives[op.token].player != p && !Forgets(v, op.token, p)))
  }

  predicate PatientRun(v: View, ops: seq<Op>, p: string)
    decreases |ops|
  {
    ops != [] ==> Patient(v, ops[0], p) && PatientRun(Step(v, ops[0]), ops[1..], p)
  }

  lemma PatientKeepsAnswers(v: View, op: Op, x: string, p: string)
    requires Inv(v) && Patient(v, op, p)
    ensures Answers(Step(v, op), x, p) <==> Answers(v, x, p)
  {
    AnswersAfter(v, op, x, p);
    hide Step, Inv, Answers, Forgets, Opens, Taken;
  }

  lemma {:induction false} PatientRunKeepsOnce(v: View, ops: seq<Op>, p: string)
    requires Inv(v) && PatientRun(v, ops, p) && AnswersOnce(v, p)
    ensures AnswersOnce(Run(v, ops), p)
    decreases |ops|
  {
    hide Inv, Step, Answers, Patient;
    if ops != [] {
      StepKeepsInv(v, ops[0]);
      forall x ensures Answers(Step(v, ops[0]), x, p) <==> Answers(v, x, p) {
        PatientKeepsAnswers(v, ops[0], x, p);
      }
      PatientRunKeepsOnce(Step(v, ops[0]), ops[1..], p);
    }
  }

  lemma ActiveAnswers(v: View, x: string, p: string)
    requires Active(v, x, p)
    ensures Answers(v, x, p)
  {
    hide Taken;
  }

  lemma {:induction false} LongerThanAll(keys: set<string>) returns (t: string)
    ensures t != "" && forall k <- keys :: |t| > |k|
    decreases keys
  {
    if k :| k in keys {
      var rest := LongerThanAll(keys - {k});
      t := rest + k;
      assert forall x <- keys :: x == k || x in keys - {k};
    } else {
      t := "t";
    }
  }

  /** All open records of the player in the cell are past the limit. */
  ghost predicate AllExpired(c: CellView, now: nat, p: string) {
    forall k :: OpenFor(c, k, p) ==> Expired(c.records[k], now, LIMIT)
  }

  /** A handoff of somebody else at the cell is enough to forget the player's expired one. */
  lemma WakeUp(v: View, a: string, other: string, p: string) returns (start: Op, prepare: Op)
    requires Inv(v) && Answers(v, a, p) && other in v.cells && other != a && other != "" && AllExpired(v.cells[a], v.now, p)
    ensures Patient(v, start, p) && Patient(Step(v, start), prepare, p)
    ensures var w := Step(Step(v, start), prepare);
            Inv(w) && Active(w, a, p) && w.now == v.now && w.cells.Keys == v.cells.Keys &&
            (forall x <- v.cells :: x != a ==> w.cells[x] == v.cells[x]) &&
            (forall x :: Answers(w, x, p) <==> Answers(v, x, p))
  {
    hide *;
    var t := LongerThanAll(v.drives.Keys);
    var q := p + "q";
    assert |q| == |p| + 1;
    start, prepare := Start(t, q, a, other), Prepare(t);
    var u, w := Step(v, start), Step(Step(v, start), prepare);
    AnswersWhere(v, a, p);
    Begins(v, t, q, a, other);
    Closing(v, u, t, q, a, p);
    StepKeepsInv(v, start);
    StepKeepsInv(u, prepare);
    NothingForgotten(v, u, t, a, p);
    MeansPatient(v, u, start, prepare, p);
    forall x ensures Answers(w, x, p) <==> Answers(v, x, p) {
      PatientKeepsAnswers(v, start, x, p);
      PatientKeepsAnswers(u, prepare, x, p);
    }
  }

  lemma AnswersWhere(v: View, a: string, p: string)
    requires Answers(v, a, p)
    ensures a in v.cells && p in v.cells[a].here
  {
  }

  lemma Begins(v: View, t: string, q: string, a: string, other: string)
    requires t != "" && (forall k <- v.drives.Keys :: |t| > |k|) && q != "" && a in v.cells && other in v.cells && other != a && other != ""
    ensures t !in v.drives
    ensures var u := Step(v, Start(t, q, a, other));
            Knows(u, t) && u.cells == v.cells && u.now == v.now && u.drives[t].src == a && u.drives[t].player == q &&
            forall k <- v.drives :: k in u.drives && u.drives[k] == v.drives[k]
  {
    NotAmong(v.drives.Keys, t);
    assert CanStart(v, Start(t, q, a, other));
  }

  lemma NotAmong(keys: set<string>, t: string)
    requires forall k <- keys :: |t| > |k|
    ensures t !in keys
  {
  }

  lemma MeansPatient(v: View, u: View, start: Op, prepare: Op, p: string)
    requires start.Start? && prepare.Prepare? && Knows(u, prepare.token)
    requires u.drives[prepare.token].player != p && !Forgets(u, prepare.token, p)
    ensures Patient(v, start, p) && Patient(u, prepare, p)
  {
  }

  /** The prepared cell has dropped every expired record of the player. */
  lemma Closing(v: View, u: View, t: string, q: string, a: string, p: string)
    requires Knows(u, t) && u.cells == v.cells && u.now == v.now && u.drives[t].src == a && u.drives[t].player == q && q != p
    requires a in v.cells && p in v.cells[a].here && AllExpired(v.cells[a], v.now, p)
    ensures var w := Step(u, Prepare(t));
            Active(w, a, p) && w.now == v.now && w.cells.Keys == v.cells.Keys &&
            forall x <- v.cells :: x != a ==> w.cells[x] == v.cells[x]
  {
    var w := Step(u, Prepare(t));
    assert w.cells[a] == PrepareCell(v.cells[a], q, t, v.now, LIMIT);
    assert w.cells[a].here == v.cells[a].here;
    forall k ensures !OpenFor(w.cells[a], k, p) {
      OpenAfterPrepare(v.cells[a], q, t, v.now, k, p);
    }
    hide PrepareCell, PruneCell;
  }

  /** A cell that answers has no takeover of the player to forget. */
  lemma NothingForgotten(v: View, u: View, t: string, a: string, p: string)
    requires Inv(v) && Answers(v, a, p) && u.cells == v.cells && t !in v.drives && u.now == v.now
    requires Knows(u, t) && u.drives[t].src == a && forall k <- v.drives :: k in u.drives && u.drives[k] == v.drives[k]
    ensures !Forgets(u, t, p)
  {
    forall k | k in v.cells[a].records && OpenFor(v.cells[a], k, p) ensures !Taken(u, k) {
      RecordedAtSource(v, k, a, p);
    }
    hide Inv, Taken;
  }

  /** After enough waiting every open record is past the limit. */
  lemma LongEnough(c: CellView, now: nat, p: string) returns (n: nat)
    requires forall j, k :: OpenFor(c, j, p) && OpenFor(c, k, p) ==> j == k
    ensures forall t: nat :: t >= now + n ==> AllExpired(c, t, p)
  {
    n := LIMIT + 1;
    if k :| OpenFor(c, k, p) {
      n := LIMIT + 1 + c.records[k].since;
    }
    forall t: nat | t >= now + n ensures AllExpired(c, t, p) {
      forall j | OpenFor(c, j, p) ensures Expired(c.records[j], t, LIMIT) {
      }
    }
  }

  /** Two answering cells can both be made to let the player act, by calls that
      concern neither the player nor who is registered where. */
  lemma BothWakeUp(v: View, a: string, b: string, p: string) returns (ops: seq<Op>)
    requires Inv(v) && "" !in v.cells && a != b && Answers(v, a, p) && Answers(v, b, p)
    ensures PatientRun(v, ops, p) && Active(Run(v, ops), a, p) && Active(Run(v, ops), b, p)
  {
    hide *;
    AnswersWhere(v, a, p);
    AnswersWhere(v, b, p);
    OpenOnlyOne(v, a, p);
    OpenOnlyOne(v, b, p);
    var na := LongEnough(v.cells[a], v.now, p);
    var nb := LongEnough(v.cells[b], v.now, p);
    var n := na + nb;
    var w := Step(v, Wait(n));
    Waits(v, n, p);
    StepKeepsInv(v, Wait(n));
    PatientKeepsAnswers(v, Wait(n), a, p);
    PatientKeepsAnswers(v, Wait(n), b, p);
    var s1, p1 := WakeUp(w, a, b, p);
    var w1 := Step(Step(w, s1), p1);
    var s2, p2 := WakeUp(w1, b, a, p);
    var w2 := Step(Step(w1, s2), p2);
    StillActive(w1, w2, a, p);
    ops := [Wait(n), s1, p1, s2, p2];
    FiveSteps(v, Wait(n), s1, p1, s2, p2, p);
  }

  lemma Waits(v: View, n: nat, p: string)
    ensures Step(v, Wait(n)) == v.(now := v.now + n) && Patient(v, Wait(n), p)
  {
  }

  lemma StillActive(v: View, w: View, id: string, p: string)
    requires Active(v, id, p) && w.cells.Keys == v.cells.Keys
    requires id in v.cells && id in w.cells ==> w.cells[id] == v.cells[id]
    ensures Active(w, id, p)
  {
  }

  lemma FiveSteps(v: View, o1: Op, o2: Op, o3: Op, o4: Op, o5: Op, p: string)
    requires var v1 := Step(v, o1); var v2 := Step(v1, o2); var v3 := Step(v2, o3); var v4 := Step(v3, o4);
             Patient(v, o1, p) && Patient(v1, o2, p) && Patient(v2, o3, p) && Patient(v3, o4, p) && Patient(v4, o5, p)
    ensures PatientRun(v, [o1, o2, o3, o4, o5], p)
    ensures Run(v, [o1, o2, o3, o4, o5]) == Step(Step(Step(Step(Step(v, o1), o2), o3), o4), o5)
  {
    hide Step, Patient;
    PushFront(v, o1, [o2, o3, o4, o5], p);
    PushFront(Step(v, o1), o2, [o3, o4, o5], p);
    PushFront(Step(Step(v, o1), o2), o3, [o4, o5], p);
    PushFront(Step(Step(Step(v, o1), o2), o3), o4, [o5], p);
    PushFront(Step(Step(Step(Step(v, o1), o2), o3), o4), o5, [], p);
  }

  lemma PushFront(v: View, op: Op, rest: seq<Op>, p: string)
    ensures Run(v, [op] + rest) == Run(Step(v, op), rest)
    ensures PatientRun(v, [op] + rest, p) <==> Patient(v, op, p) && PatientRun(Step(v, op), rest, p)
  {
    assert ([op] + rest)[1..] == rest;
    hide Step, Patient;
  }

  /** These patient calls let the player act in at most one cell. */
  ghost predicate StaysSingle(v: View, p: string, ops: seq<Op>) {
    PatientRun(v, ops, p) ==> ActiveOnce(Run(v, ops), p)
  }

  /** The weakest exclusive condition: at most one cell answers for a player if and
      only if no amount of waiting and of handoffs of other players, none of which
      forgets a takeover of this one, lets the player act in two cells. */
  lemma AnswersOnceIsWeakest(v: View, p: string)
    requires Inv(v) && "" !in v.cells
    ensures AnswersOnce(v, p) <==> forall ops: seq<Op> :: StaysSingle(v, p, ops)
  {
    hide Inv, Step, Answers, Active, PatientRun, Run;
    if AnswersOnce(v, p) {
      forall ops: seq<Op> ensures StaysSingle(v, p, ops) {
        if PatientRun(v, ops, p) {
          PatientRunKeepsOnce(v, ops, p);
          forall x | Active(Run(v, ops), x, p) ensures Answers(Run(v, ops), x, p) {
            ActiveAnswers(Run(v, ops), x, p);
          }
        }
      }
    } else {
      var a, b :| Answers(v, a, p) && Answers(v, b, p) && a != b;
      var ops := BothWakeUp(v, a, b, p);
      assert !StaysSingle(v, p, ops);
    }
  }
}
