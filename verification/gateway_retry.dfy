/** The gateway's pause between attempts to switch a player to another cell. */
module GatewayRetry {
  import opened Text
  import CellPath

  /** `attempts` and the time before which no attempt is made; a pair without an entry is at rest. */
  datatype RetryState = RetryState(attempts: int, nextAttemptAt: int)

  const AT_REST := RetryState(0, 0)

  function RetryKey(from: string, to: string): string {
    TrimSpace(from) + "->" + TrimSpace(to)
  }

  // ---------------------------------------------------------------- the key tells pairs apart

  predicate HasArrow(s: string) {
    exists i :: 0 <= i && i + 1 < |s| && s[i] == '-' && s[i + 1] == '>'
  }

  predicate SamePair(from: string, to: string, from': string, to': string) {
    TrimSpace(from) == TrimSpace(from') && TrimSpace(to) == TrimSpace(to')
  }

  lemma JoinedByArrow(f: string, t: string, f': string, t': string)
    requires f + "->" + t == f' + "->" + t' && |f| <= |f'|
    ensures (f == f' && t == t') || HasArrow(f')
  {
    var key, n := f + "->" + t, |f|;
    assert key[..n] == f && key[n] == '-' && key[n + 1] == '>' && key[n + 2..] == t;
    assert key == f' + "->" + t';
    if |f'| == n {
      assert key[..n] == f' && key[n + 2..] == t';
    } else {
      assert key[n + 1] == (f' + "->" + t')[n + 1];
      assert f'[n] == key[n];
    }
  }

  /** Two pairs whose first ids have no arrow in them share a key exactly if they are the same but for outer white space. */
  lemma KeyTellsPairs(from: string, to: string, from': string, to': string)
    requires !HasArrow(TrimSpace(from)) && !HasArrow(TrimSpace(from'))
    ensures RetryKey(from, to) == RetryKey(from', to') <==> SamePair(from, to, from', to')
  {
    var f, t, f', t' := TrimSpace(from), TrimSpace(to), TrimSpace(from'), TrimSpace(to');
    hide HasArrow, TrimSpace;
    if RetryKey(from, to) == RetryKey(from', to') {
      if |f| <= |f'| {
        JoinedByArrow(f, t, f', t');
      } else {
        JoinedByArrow(f', t', f, t);
      }
    }
  }

  lemma KeyIgnoresPadding(from: string, to: string)
    ensures RetryKey(TrimSpace(from), TrimSpace(to)) == RetryKey(from, to)
  {
    TrimIsIdempotent(from);
    TrimIsIdempotent(to);
    hide TrimSpace;
  }

  /** An arrow inside an id can be taken for the one between two ids: such pairs meet in one key. */
  lemma ArrowsMeet(f: string, g: string, t: string)
    requires f != "" && g != "" && t != "" && Trimmed(f) && Trimmed(g) && Trimmed(t)
    ensures RetryKey(f + "->" + g, t) == RetryKey(f, g + "->" + t) && !SamePair(f + "->" + g, t, f, g + "->" + t)
  {
    hide TrimSpace, Trimmed;
    TrimIsIdempotent(f);
    TrimIsIdempotent(t);
    ArrowTrimmed(f, g);
    ArrowTrimmed(g, t);
    ArrowsAssociate(f, g, t);
    assert |f + "->" + g| > |f|;
  }

  lemma ArrowTrimmed(a: string, b: string)
    requires a != "" && b != "" && Trimmed(a) && Trimmed(b)
    ensures TrimSpace(a + "->" + b) == a + "->" + b
  {
    hide TrimSpace, IsSpace;
    var s := a + "->" + b;
    assert s[0] == a[0] && s[|s| - 1] == b[|b| - 1];
    TrimIsIdempotent(s);
  }

  lemma ArrowsAssociate(f: string, g: string, t: string)
    ensures (f + "->" + g) + "->" + t == f + "->" + (g + "->" + t)
  {
  }

  lemma {:induction false} BodyHasNoArrow(b: string)
    requires CellPath.IsBody(b)
    ensures '>' !in b
  {
    if |b| > 2 {
      BodyHasNoArrow(b[3..]);
      assert b == [b[0], b[1], b[2]] + b[3..];
    }
  }

  lemma PathIdHasNoArrow(id: string)
    requires CellPath.PathOf(id).Some?
    ensures !HasArrow(TrimSpace(id))
  {
    var s := TrimSpace(id);
    hide TrimSpace;
    var body := CellPath.AfterPrefix(s).value;
    assert s == CellPath.PREFIX + body;
    if body != CellPath.ROOT_BODY {
      BodyHasNoArrow(body);
    }
    assert '>' !in s;
  }

  /** Between cells with path ids the key stands for the two cells. */
  lemma KeyTellsCells(from: string, to: string, from': string, to': string)
    requires CellPath.PathOf(from).Some? && CellPath.PathOf(to).Some? && CellPath.PathOf(from').Some? && CellPath.PathOf(to').Some?
    ensures RetryKey(from, to) == RetryKey(from', to') <==>
              CellPath.PathOf(from) == CellPath.PathOf(from') && CellPath.PathOf(to) == CellPath.PathOf(to')
  {
    PathIdHasNoArrow(from);
    PathIdHasNoArrow(from');
    KeyTellsPairs(from, to, from', to');
    CellPath.FormatAfterParse(from);
    CellPath.FormatAfterParse(to);
    CellPath.FormatAfterParse(from');
    CellPath.FormatAfterParse(to');
    SamePath(from, from');
    SamePath(to, to');
    hide CellPath.PathOf, RetryKey, TrimSpace;
  }

  lemma SamePath(id: string, id': string)
    ensures TrimSpace(id) == TrimSpace(id') ==> CellPath.PathOf(id) == CellPath.PathOf(id')
  {
    hide TrimSpace;
  }

  /** Whether the table lets the pair try at `now`. */
  predicate Allows(retries: map<string, RetryState>, now: int, from: string, to: string) {
    RetryKey(from, to) in retries ==> now >= retries[RetryKey(from, to)].nextAttemptAt
  }

  predicate OtherPair(from: string, to: string, from': string, to': string) {
    !HasArrow(TrimSpace(from)) && !HasArrow(TrimSpace(from')) && !SamePair(from, to, from', to')
  }

  /** Every other pair is let through at the same times as before. */
  ghost predicate SparesOthers(before: map<string, RetryState>, after: map<string, RetryState>, from: string, to: string) {
    forall now: int, f, t :: OtherPair(from, to, f, t) ==> (Allows(after, now, f, t) <==> Allows(before, now, f, t))
  }

  lemma OneKeySparesOthers(before: map<string, RetryState>, after: map<string, RetryState>, from: string, to: string)
    requires before - {RetryKey(from, to)} == after - {RetryKey(from, to)}
    ensures SparesOthers(before, after, from, to)
  {
    hide RetryKey;
    forall now: int, f, t | OtherPair(from, to, f, t) ensures Allows(after, now, f, t) <==> Allows(before, now, f, t) {
      KeyTellsPairs(from, to, f, t);
      hide TrimSpace, HasArrow;
      var key := RetryKey(f, t);
      assert key in before <==> key in before - {RetryKey(from, to)};
      assert key in after <==> key in after - {RetryKey(from, to)};
      if key in before && key in after {
        assert before[key] == (before - {RetryKey(from, to)})[key] == (after - {RetryKey(from, to)})[key] == after[key];
      }
    }
  }

  // ---------------------------------------------------------------- the pause

  function Pow2(n: nat): nat {
    if n == 0 then 1 else 2 * Pow2(n - 1)
  }

  /** min(base * 2^(attempts - 1), max); a non-positive maximum is no limit. */
  function Backoff(base: int, max: int, attempts: int): int
    requires attempts >= 1
  {
    var grown := base * Pow2(attempts - 1);
    if max > 0 && grown > max then max else grown
  }

  /** A failure after the pause, or the first one, starts counting anew. */
  function Failed(st: RetryState, known: bool, now: int, base: int, max: int): RetryState {
    var attempts := if !known || now > st.nextAttemptAt || st.attempts <= 0 then 1 else st.attempts + 1;
    RetryState(attempts, now + Backoff(base, max, attempts))
  }

  class Session {
    var retries: map<string, RetryState>

    constructor ()
      ensures retries == map[]
    {
      retries := map[];
    }

    method AllowPositionSwitchRetry(now: int, from: string, to: string) returns (ok: bool)
      ensures ok <==> Allows(retries, now, from, to)
    {
      hide TrimSpace;
      if |retries| == 0 {
        return true;
      }
      var key := RetryKey(from, to);
      if key !in retries {
        return true;
      }
      ok := !(now < retries[key].nextAttemptAt);
    }

    method MarkPositionSwitchRetryFailure(now: int, from: string, to: string, base: int, max: int)
      modifies this
      ensures base <= 0 ==> retries == old(retries)
      ensures base > 0 ==>
                var key := RetryKey(from, to);
                retries == old(retries)[key := Failed(if key in old(retries) then old(retries)[key] else AT_REST, key in old(retries), now, base, max)]
      ensures SparesOthers(old(retries), retries, from, to)
    {
      hide TrimSpace, RetryKey, Backoff, Allows, OtherPair, SparesOthers;
      OneKeySparesOthers(retries, retries, from, to);
      if base <= 0 {
        return;
      }
      var key := RetryKey(from, to);
      var st := if key in retries then retries[key] else AT_REST;
      var attempts := if key !in retries || now > st.nextAttemptAt || st.attempts <= 0 then 1 else st.attempts + 1;
      var backoff := BackoffLoop(base, max, attempts);
      retries := retries[key := RetryState(attempts, now + backoff)];
      assert old(retries) - {key} == retries - {key};
      OneKeySparesOthers(old(retries), retries, from, to);
    }

    method ClearPositionSwitchRetryState(from: string, to: string)
      modifies this
      ensures retries == old(retries) - {RetryKey(from, to)} && SparesOthers(old(retries), retries, from, to)
    {
      hide TrimSpace, RetryKey, Allows, OtherPair, SparesOthers;
      OneKeySparesOthers(retries, retries, from, to);
      if |retries| == 0 {
        assert retries - {RetryKey(from, to)} == retries;
        return;
      }
      retries := retries - {RetryKey(from, to)};
      assert old(retries) - {RetryKey(from, to)} == retries - {RetryKey(from, to)};
      OneKeySparesOthers(old(retries), retries, from, to);
    }
  }

  /** Doubling with an early stop at the maximum computes the closed form. */
  method BackoffLoop(base: int, max: int, attempts: int) returns (backoff: int)
    requires base > 0 && attempts >= 1
    ensures backoff == Backoff(base, max, attempts)
  {
    backoff := base;
    var i := 1;
    PowStep(base, 0);
    while i < attempts
      invariant 1 <= i <= attempts && backoff == base * Pow2(i - 1)
      invariant i > 1 && max > 0 ==> backoff < max
      decreases attempts - i
    {
      PowStep(base, i);
      backoff := backoff * 2;
      if max > 0 && backoff >= max {
        PowGrows(base, i, attempts - 1);
        backoff := max;
        break;
      }
      i := i + 1;
    }
    if max > 0 && backoff > max {
      backoff := max;
    }
  }

  lemma PowStep(base: int, i: nat)
    ensures base * Pow2(0) == base
    ensures i > 0 ==> base * Pow2(i) == (base * Pow2(i - 1)) * 2
  {
  }

  lemma {:induction false} PowGrows(base: int, i: nat, j: nat)
    requires base > 0 && i <= j
    ensures base * Pow2(i) <= base * Pow2(j)
    decreases j
  {
    if i < j {
      PowGrows(base, i, j - 1);
      PowStep(base, j);
      PowPositive(base, j - 1);
    }
  }

  lemma {:induction false} PowPositive(base: int, i: nat)
    requires base > 0
    ensures base * Pow2(i) >= base
  {
    if i > 0 {
      PowPositive(base, i - 1);
      PowStep(base, i);
    }
  }

  // ---------------------------------------------------------------- gated attempts on one pair

  /** How an attempt ends for its pair: a retriable failure is recorded, a switch
      after all clears the entry, anything else leaves it. */
  datatype Outcome = Recorded | Cleared | Left

  datatype Attempt = Attempt(now: int, outcome: Outcome)

  predicate Gated(st: Option<RetryState>, now: int) {
    st.Some? ==> now >= st.value.nextAttemptAt
  }

  /** The pair's entry after an attempt; a non-positive base pause records nothing. */
  function Step(st: Option<RetryState>, a: Attempt, base: int, max: int): Option<RetryState> {
    match a.outcome
    case Recorded => if base <= 0 then st else Some(Failed(if st.Some? then st.value else AT_REST, st.Some?, a.now, base, max))
    case Cleared => None
    case Left => st
  }

  function RunAttempts(attempts: seq<Attempt>, base: int, max: int): Option<RetryState> {
    if attempts == [] then None
    else Step(RunAttempts(attempts[..|attempts| - 1], base, max), attempts[|attempts| - 1], base, max)
  }

  /** Every attempt found its gate open. */
  predicate AllGated(attempts: seq<Attempt>, base: int, max: int) {
    forall i :: 0 <= i < |attempts| ==> Gated(RunAttempts(attempts[..i], base, max), attempts[i].now)
  }

  lemma {:induction false} EntryCounts(attempts: seq<Attempt>, base: int, max: int)
    ensures RunAttempts(attempts, base, max).Some? ==> RunAttempts(attempts, base, max).value.attempts >= 1
  {
    if attempts != [] {
      EntryCounts(attempts[..|attempts| - 1], base, max);
    }
  }

  /** The pause chosen at a recorded failure: never more than `max`, and the base
      pause (cut to `max`) unless the attempt came at the very moment the gate opened. */
  lemma PauseAt(attempts: seq<Attempt>, base: int, max: int, i: nat)
    requires base > 0 && i < |attempts| && AllGated(attempts, base, max) && attempts[i].outcome.Recorded?
    ensures var st := RunAttempts(attempts[..i + 1], base, max);
            st.Some? && st.value.attempts >= 1 && st.value.nextAttemptAt == attempts[i].now + Backoff(base, max, st.value.attempts)
    ensures var before, st := RunAttempts(attempts[..i], base, max), RunAttempts(attempts[..i + 1], base, max);
            st.value.attempts == if before.Some? && attempts[i].now == before.value.nextAttemptAt then before.value.attempts + 1 else 1
  {
    assert attempts[..i + 1][..i] == attempts[..i];
    EntryCounts(attempts[..i], base, max);
    assert Gated(RunAttempts(attempts[..i], base, max), attempts[i].now);
  }

  /** No switch in between cleared the entry. */
  predicate NoneCleared(attempts: seq<Attempt>, from: int, to: int) {
    forall k :: from <= k < to && 0 <= k < |attempts| ==> !attempts[k].outcome.Cleared?
  }

  lemma BackoffAtLeast(base: int, max: int, n: int)
    requires base > 0 && n >= 1
    ensures Backoff(base, max, n) >= Backoff(base, max, 1)
  {
    PowGrows(base, 0, n - 1);
  }

  /** Until it is cleared, the gate of a recorded failure holds: later failures only move it on. */
  lemma {:induction false} GateHolds(attempts: seq<Attempt>, base: int, max: int, i: nat, j: nat)
    requires base > 0 && i < j <= |attempts| && AllGated(attempts, base, max)
    requires attempts[i].outcome.Recorded? && NoneCleared(attempts, i + 1, j)
    ensures var st, now := RunAttempts(attempts[..i + 1], base, max), RunAttempts(attempts[..j], base, max);
            st.Some? && now.Some? && now.value.nextAttemptAt >= st.value.nextAttemptAt
    decreases j
  {
    hide RunAttempts, Failed, Backoff;
    if j == i + 1 {
      PauseAt(attempts, base, max, i);
    } else {
      GateHolds(attempts, base, max, i, j - 1);
      LastStep(attempts, base, max, j);
      if attempts[j - 1].outcome.Recorded? {
        PauseAt(attempts, base, max, j - 1);
        assert Gated(RunAttempts(attempts[..j - 1], base, max), attempts[j - 1].now);
        BackoffPositive(base, max, RunAttempts(attempts[..j], base, max).value.attempts);
      }
    }
  }

  lemma LastStep(attempts: seq<Attempt>, base: int, max: int, j: nat)
    requires 0 < j <= |attempts|
    ensures RunAttempts(attempts[..j], base, max) == Step(RunAttempts(attempts[..j - 1], base, max), attempts[j - 1], base, max)
  {
    assert attempts[..j][..j - 1] == attempts[..j - 1];
    hide Step;
  }

  /** The pause begins at the base, doubles with each further failure, and stops at the maximum. */
  lemma BackoffDoubles(base: int, max: int, attempts: int)
    requires base > 0 && attempts >= 1
    ensures Backoff(base, max, 1) == if max > 0 && base > max then max else base
    ensures var next := 2 * Backoff(base, max, attempts);
            Backoff(base, max, attempts + 1) == if max > 0 && next > max then max else next
  {
    PowStep(base, 0);
    PowStep(base, attempts);
    hide Pow2;
  }

  lemma BackoffPositive(base: int, max: int, attempts: int)
    requires base > 0 && attempts >= 1
    ensures Backoff(base, max, attempts) > 0
  {
    PowPositive(base, attempts - 1);
  }

  /** After a recorded failure, every later attempt on the pair up to the first that
      follows a successful switch comes at least the chosen pause later, so never
      sooner than min(base, max). */
  lemma AttemptsSpaced(attempts: seq<Attempt>, base: int, max: int, i: nat, j: nat)
    requires base > 0 && i < j < |attempts| && AllGated(attempts, base, max)
    requires attempts[i].outcome.Recorded? && NoneCleared(attempts, i + 1, j)
    ensures var st := RunAttempts(attempts[..i + 1], base, max);
            st.Some? && st.value.attempts >= 1 && attempts[j].now >= attempts[i].now + Backoff(base, max, st.value.attempts)
    ensures attempts[j].now >= attempts[i].now + Backoff(base, max, 1)
  {
    PauseAt(attempts, base, max, i);
    GateHolds(attempts, base, max, i, j);
    assert Gated(RunAttempts(attempts[..j], base, max), attempts[j].now);
    BackoffAtLeast(base, max, RunAttempts(attempts[..i + 1], base, max).value.attempts);
  }

  /** A recorded failure that no switch has cleared since. */
  predicate Stands(attempts: seq<Attempt>, i: int) {
    0 <= i < |attempts| && attempts[i].outcome.Recorded? && NoneCleared(attempts, i + 1, |attempts|)
  }

  /** An attempt may come at any time exactly while no failure has been recorded since the last switch. */
  lemma GateIsOpen(attempts: seq<Attempt>, base: int, max: int)
    requires base > 0
    ensures (forall t: int :: Gated(RunAttempts(attempts, base, max), t)) <==> forall i :: !Stands(attempts, i)
  {
    EntryMeans(attempts, base, max);
    var st := RunAttempts(attempts, base, max);
    if st.Some? {
      assert !Gated(st, st.value.nextAttemptAt - 1);
    }
  }

  lemma {:induction false} EntryMeans(attempts: seq<Attempt>, base: int, max: int)
    requires base > 0
    ensures RunAttempts(attempts, base, max).Some? <==> exists i :: Stands(attempts, i)
  {
    if attempts != [] {
      var n := |attempts| - 1;
      var front, last := attempts[..n], attempts[n];
      EntryMeans(front, base, max);
      forall i ensures Stands(attempts, i) <==> (i == n && last.outcome.Recorded?) || (Stands(front, i) && !last.outcome.Cleared?) {
        StandsOn(front, last, i);
        assert attempts == front + [last];
      }
      hide Failed, Stands;
      if last.outcome.Recorded? {
        assert Stands(attempts, n);
      }
    }
  }

  lemma StandsOn(front: seq<Attempt>, last: Attempt, i: int)
    ensures Stands(front + [last], i) <==> (i == |front| && last.outcome.Recorded?) || (Stands(front, i) && !last.outcome.Cleared?)
  {
    var all := front + [last];
    if 0 <= i < |front| {
      assert all[i] == front[i] && all[|front|] == last;
      assert NoneCleared(all, i + 1, |all|) <==> NoneCleared(front, i + 1, |front|) && !last.outcome.Cleared? by {
        assert forall k :: 0 <= k < |front| ==> all[k] == front[k];
      }
    }
  }

  /** As long as no recorded failure falls exactly on the opening of the gate the
      pause never grows: each waits the base pause again. */
  lemma PauseNeverGrows(attempts: seq<Attempt>, base: int, max: int)
    requires base > 0 && AllGated(attempts, base, max)
    requires forall i :: 0 <= i < |attempts| && attempts[i].outcome.Recorded? && RunAttempts(attempts[..i], base, max).Some? ==>
               attempts[i].now != RunAttempts(attempts[..i], base, max).value.nextAttemptAt
    ensures forall i :: 0 <= i < |attempts| && attempts[i].outcome.Recorded? ==>
              RunAttempts(attempts[..i + 1], base, max) == Some(RetryState(1, attempts[i].now + Backoff(base, max, 1)))
  {
    forall i | 0 <= i < |attempts| && attempts[i].outcome.Recorded?
      ensures RunAttempts(attempts[..i + 1], base, max) == Some(RetryState(1, attempts[i].now + Backoff(base, max, 1)))
    {
      PauseAt(attempts, base, max, i);
    }
  }
}
