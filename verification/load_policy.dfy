/** The load policy: when a sustained breach triggers an action, and when
    sustained low load starts a merge. */
module LoadPolicy {
  import opened Text
  import opened CellPath
  import opened Siblings

  /** Since when the condition has held without a break, and the last action; both may be unset. */
  datatype PolicyState = PolicyState(since: Option<int>, lastAction: Option<int>)

  const AT_REST := PolicyState(None, None)

  /** One sample: whether the condition holds, and what happens. Merging
      (`restart`) begins a new window after each action. */
  function Observed(st: PolicyState, now: int, holds: bool, window: int, cooldown: int,
                    restart: bool): (PolicyState, bool) {
    if !holds then (st.(since := None), false)
    else if st.since.None? then (st.(since := Some(now)), false)
    else if now - st.since.value < window then (st, false)
    else if st.lastAction.Some? && now - st.lastAction.value < cooldown then (st, false)
    else (PolicyState(if restart then None else st.since, Some(now)), true)
  }

  // ---------------------------------------------------------------- the history rule

  datatype Sample = Sample(at: int, holds: bool)

  datatype Rule = Rule(window: int, cooldown: int, restart: bool)

  function StateAfter(h: seq<Sample>, n: nat, rule: Rule): PolicyState
    requires n <= |h|
  {
    if n == 0 then AT_REST
    else Observed(StateAfter(h, n - 1, rule), h[n - 1].at, h[n - 1].holds, rule.window, rule.cooldown, rule.restart).0
  }

  /** An action happens at sample `n`. */
  predicate Fires(h: seq<Sample>, n: nat, rule: Rule)
    requires n < |h|
  {
    Observed(StateAfter(h, n, rule), h[n].at, h[n].holds, rule.window, rule.cooldown, rule.restart).1
  }

  predicate InOrder(h: seq<Sample>) {
    forall i, j :: 0 <= i <= j < |h| ==> h[i].at <= h[j].at
  }

  /** The condition has held at every sample from `k` to `n`; when actions begin
      a new window, none happened on the way. */
  predicate Unbroken(h: seq<Sample>, k: nat, n: nat, rule: Rule)
    requires k <= n < |h|
  {
    (forall i :: k <= i <= n ==> h[i].holds) && (rule.restart ==> forall i :: k <= i < n ==> !Fires(h, i, rule))
  }

  /** The first sample of the unbroken stretch that ends just before `n`. */
  function StretchStart(h: seq<Sample>, n: nat, rule: Rule): (k: nat)
    requires n <= |h|
    ensures k <= n
  {
    if n == 0 || !h[n - 1].holds || (rule.restart && Fires(h, n - 1, rule)) then n else StretchStart(h, n - 1, rule)
  }

  lemma {:induction false} StretchIsMaximal(h: seq<Sample>, n: nat, rule: Rule)
    requires n <= |h|
    ensures var s := StretchStart(h, n, rule);
            (forall i :: s <= i < n ==> h[i].holds && (rule.restart ==> !Fires(h, i, rule))) &&
            (s > 0 ==> !h[s - 1].holds || (rule.restart && Fires(h, s - 1, rule)))
  {
    if n > 0 && h[n - 1].holds && !(rule.restart && Fires(h, n - 1, rule)) {
      StretchIsMaximal(h, n - 1, rule);
    }
  }

  lemma {:induction false} StateMeans(h: seq<Sample>, n: nat, rule: Rule)
    requires n <= |h|
    ensures var st, s := StateAfter(h, n, rule), StretchStart(h, n, rule);
            st.since == (if s < n then Some(h[s].at) else None) &&
            (st.lastAction.None? <==> forall m :: 0 <= m < n ==> !Fires(h, m, rule)) &&
            (st.lastAction.Some? ==> exists m :: LastFire(h, m, n, rule) && st.lastAction == Some(h[m].at))
  {
    if n > 0 {
      StateMeans(h, n - 1, rule);
      var before, st := StateAfter(h, n - 1, rule), StateAfter(h, n, rule);
      if Fires(h, n - 1, rule) {
        assert LastFire(h, n - 1, n, rule);
      } else if before.lastAction.Some? {
        var m :| LastFire(h, m, n - 1, rule) && before.lastAction == Some(h[m].at);
        assert LastFire(h, m, n, rule);
      }
    }
  }

  predicate LastFire(h: seq<Sample>, m: int, n: nat, rule: Rule)
    requires n <= |h|
  {
    0 <= m < n && Fires(h, m, rule) && forall i :: m < i < n ==> !Fires(h, i, rule)
  }

  /** An action happens exactly when the condition has held unbroken back to an
      earlier sample at least `window` old and every earlier action is at least
      `cooldown` old. */
  lemma HistoryRule(h: seq<Sample>, n: nat, rule: Rule)
    requires n < |h| && InOrder(h)
    ensures Fires(h, n, rule) <==>
              (exists k: nat :: k < n && Unbroken(h, k, n, rule) && h[n].at - h[k].at >= rule.window) &&
              (forall m :: 0 <= m < n && Fires(h, m, rule) ==> h[n].at - h[m].at >= rule.cooldown)
  {
    StateMeans(h, n, rule);
    StretchIsMaximal(h, n, rule);
    var st, s := StateAfter(h, n, rule), StretchStart(h, n, rule);
    hide StateAfter, StretchStart;
    if Fires(h, n, rule) {
      assert Unbroken(h, s, n, rule);
      FireAllowed(h, n, rule, st);
    } else if k: nat :| k < n && Unbroken(h, k, n, rule) && h[n].at - h[k].at >= rule.window {
      assert s <= k;
      FireAllowed(h, n, rule, st);
    }
  }

  /** The cooldown test against the last action is the test against all of them. */
  lemma FireAllowed(h: seq<Sample>, n: nat, rule: Rule, st: PolicyState)
    requires n < |h| && InOrder(h)
    requires st.lastAction.None? <==> forall m :: 0 <= m < n ==> !Fires(h, m, rule)
    requires st.lastAction.Some? ==> exists m :: LastFire(h, m, n, rule) && st.lastAction == Some(h[m].at)
    ensures (st.lastAction.Some? ==> h[n].at - st.lastAction.value >= rule.cooldown) <==>
              forall m :: 0 <= m < n && Fires(h, m, rule) ==> h[n].at - h[m].at >= rule.cooldown
  {
    hide Fires;
    if st.lastAction.Some? {
      var last :| LastFire(h, last, n, rule) && st.lastAction == Some(h[last].at);
      assert forall m :: 0 <= m < n && Fires(h, m, rule) ==> m <= last;
    }
  }

  /** Two merge starts are at least both the window and the cooldown apart. */
  lemma MergeStartsSpaced(h: seq<Sample>, m: nat, n: nat, rule: Rule)
    requires m < n < |h| && InOrder(h) && rule.restart && Fires(h, m, rule) && Fires(h, n, rule)
    ensures h[n].at - h[m].at >= rule.window && h[n].at - h[m].at >= rule.cooldown
  {
    HistoryRule(h, n, rule);
    hide Fires;
    var k: nat :| k < n && Unbroken(h, k, n, rule) && h[n].at - h[k].at >= rule.window;
    assert m < k || !(k <= m < n);
  }

  // ---------------------------------------------------------------- the runtime

  datatype Config = Config(minBreach: nat, cooldown: nat, autoSplitDrain: bool,
                           autoMerge: bool, lowLoadFor: nat, mergeCooldown: nat, playerHandoff: bool,
                           maxPlayers: real, handoffMaxPlayers: real, maxEntities: real, maxTickSec: real)

  datatype ActionKind = LogOnly | SplitDrain

  datatype ActionResult = Done | Failed | Skipped

  /** What an action did; a split workflow is asked for when draining was decided and did not fail. */
  datatype Action = Action(kind: ActionKind, outcome: ActionResult, startsSplit: bool)

  datatype LoadSample = LoadSample(reachable: bool, players: real, entities: real, tickSec: real)

  function ActionFor(cfg: Config, reachable: bool, splitEnabled: bool, drainOk: bool): Action {
    if cfg.autoSplitDrain && reachable then
      (if splitEnabled || drainOk then Action(SplitDrain, Done, true) else Action(SplitDrain, Failed, false))
    else Action(LogOnly, if reachable then Done else Skipped, false)
  }

  function Limit(limit: real, value: real): bool {
    limit < 0.0 || value <= limit
  }

  /** A child with a proper entry, reachable and below all limits. */
  predicate QuietChild(cfg: Config, byID: map<string, CellSpec>, samples: map<string, LoadSample>, level: int,
                       id: string) {
    id != "" && id in byID && byID[id].bounds.Some? && byID[id].level == level && id in samples && samples[id].reachable &&
    Limit(if cfg.playerHandoff then cfg.handoffMaxPlayers else cfg.maxPlayers, samples[id].players) &&
    Limit(cfg.maxEntities, samples[id].entities) && Limit(cfg.maxTickSec, samples[id].tickSec)
  }

  function TotalPlayers(samples: map<string, LoadSample>, ids: seq<string>): real
    requires forall id <- ids :: id in samples
  {
    if ids == [] then 0.0 else TotalPlayers(samples, ids[..|ids| - 1]) + samples[ids[|ids| - 1]].players
  }

  /** `c` lies below the child `id`, which is itself at the children's level. */
  predicate Below(c: Option<CellSpec>, id: string, level: int) {
    c.Some? && PathOf(TrimSpace(c.value.id)).Some? && |PathOf(TrimSpace(c.value.id)).value| > level &&
    PathOf(id).Some? && |PathOf(id).value| == level && IsDescendant(id, TrimSpace(c.value.id))
  }

  /** All four quiet, few enough players together, and nothing registered below them. */
  ghost predicate QuietGroup(cfg: Config, cells: seq<Option<CellSpec>>, byID: map<string, CellSpec>,
                             samples: map<string, LoadSample>, level: int, ids: seq<string>)
  {
    (forall id <- ids :: QuietChild(cfg, byID, samples, level, id)) &&
    (cfg.playerHandoff ==> Limit(cfg.handoffMaxPlayers, TotalPlayers(samples, ids))) &&
    (forall i, k | 0 <= i < |cells| && 0 <= k < |ids| :: !Below(cells[i], ids[k], level))
  }

  /** The child is registered with bounds at its level, and answers. */
  predicate Present(byID: map<string, CellSpec>, samples: map<string, LoadSample>, level: int, id: string) {
    id != "" && id in byID && byID[id].bounds.Some? && byID[id].level == level && id in samples && samples[id].reachable
  }

  /** The child is above a limit that is in force; a negative limit is none. */
  predicate Overloaded(cfg: Config, s: LoadSample) {
    (!cfg.playerHandoff && 0.0 <= cfg.maxPlayers < s.players) || (cfg.playerHandoff && 0.0 <= cfg.handoffMaxPlayers < s.players) ||
    0.0 <= cfg.maxEntities < s.entities || 0.0 <= cfg.maxTickSec < s.tickSec
  }

  /** A group is quiet exactly when all children are present, none is above a
      limit, the players to hand off are not too many together, and nothing is registered below. */
  lemma QuietExactly(cfg: Config, cells: seq<Option<CellSpec>>, byID: map<string, CellSpec>,
                     samples: map<string, LoadSample>, level: int, ids: seq<string>)
    requires forall id <- ids :: id in samples && Present(byID, samples, level, id)
    ensures QuietGroup(cfg, cells, byID, samples, level, ids) <==>
              (forall id <- ids :: !Overloaded(cfg, samples[id])) &&
              !(cfg.playerHandoff && 0.0 <= cfg.handoffMaxPlayers < TotalPlayers(samples, ids)) &&
              (forall i, k | 0 <= i < |cells| && 0 <= k < |ids| :: !Below(cells[i], ids[k], level))
  {
    hide Below;
    assert forall id <- ids :: QuietChild(cfg, byID, samples, level, id) <==> !Overloaded(cfg, samples[id]);
  }

  lemma QuietIsPresent(cfg: Config, cells: seq<Option<CellSpec>>, byID: map<string, CellSpec>,
                       samples: map<string, LoadSample>, level: int, ids: seq<string>, id: string)
    requires QuietGroup(cfg, cells, byID, samples, level, ids) && id in ids
    ensures Present(byID, samples, level, id)
  {
    assert QuietChild(cfg, byID, samples, level, id);
  }

  predicate AtMost(a: LoadSample, b: LoadSample) {
    a.reachable == b.reachable && a.players <= b.players && a.entities <= b.entities && a.tickSec <= b.tickSec
  }

  lemma {:induction false} FewerPlayers(before: map<string, LoadSample>, after: map<string, LoadSample>, ids: seq<string>)
    requires forall id <- ids :: id in before && id in after && AtMost(after[id], before[id])
    ensures TotalPlayers(after, ids) <= TotalPlayers(before, ids)
  {
    if ids != [] {
      FewerPlayers(before, after, ids[..|ids| - 1]);
    }
  }

  /** The players of a group of four, added up. */
  lemma FourTotal(samples: map<string, LoadSample>, a: string, b: string, c: string, d: string)
    requires a in samples && b in samples && c in samples && d in samples
    ensures TotalPlayers(samples, [a, b, c, d]) == samples[a].players + samples[b].players + samples[c].players + samples[d].players
  {
    assert [a, b, c, d][..3] == [a, b, c] && [a, b, c][..2] == [a, b] && [a, b][..1] == [a];
    assert TotalPlayers(samples, [a]) == samples[a].players;
    assert TotalPlayers(samples, [a, b]) == samples[a].players + samples[b].players;
    assert TotalPlayers(samples, [a, b, c]) == samples[a].players + samples[b].players + samples[c].players;
  }

  /** Below a child, for path ids: a longer path that begins with the child's. */
  lemma BelowIsDescendant(c: CellSpec, id: string, level: int)
    requires PathOf(id).Some? && |PathOf(id).value| == level
    ensures Below(Some(c), id, level) <==> PathOf(c.id).Some? && PathOf(id).value < PathOf(c.id).value
  {
    TrimIsIdempotent(c.id);
    hide TrimSpace;
  }

  /** Less load never ends a quiet spell. */
  lemma LessLoadStaysQuiet(cfg: Config, cells: seq<Option<CellSpec>>, byID: map<string, CellSpec>, before: map<string, LoadSample>,
                           after: map<string, LoadSample>, level: int, ids: seq<string>)
    requires QuietGroup(cfg, cells, byID, before, level, ids)
    requires forall id <- ids :: id in before ==> id in after && AtMost(after[id], before[id])
    ensures QuietGroup(cfg, cells, byID, after, level, ids)
  {
    hide Below;
    forall id | id in ids ensures QuietChild(cfg, byID, after, level, id) {
      assert QuietChild(cfg, byID, before, level, id);
    }
    if cfg.playerHandoff {
      FewerPlayers(before, after, ids);
    }
  }

  /** What an action says: draining is decided for a reachable cell only, a split
      starts exactly if it need not drain or draining succeeded. */
  lemma ActionMeans(cfg: Config, reachable: bool, splitEnabled: bool, drainOk: bool)
    ensures var a := ActionFor(cfg, reachable, splitEnabled, drainOk);
            (a.kind.SplitDrain? <==> cfg.autoSplitDrain && reachable) &&
            (a.outcome.Skipped? <==> !reachable) &&
            (a.outcome.Failed? <==> cfg.autoSplitDrain && reachable && !splitEnabled && !drainOk) &&
            (a.startsSplit <==> a.kind.SplitDrain? && a.outcome.Done?)
  {
  }

  method MergeGroupLowLoad(cfg: Config, cells: seq<Option<CellSpec>>, byID: map<string, CellSpec>,
                           samples: map<string, LoadSample>, parentLevel: int, ids: seq<string>) returns (ok: bool)
    ensures ok <==> QuietGroup(cfg, cells, byID, samples, parentLevel + 1, ids)
  {
    hide Below;
    var level := parentLevel + 1;
    var total := 0.0;
    for k := 0 to |ids|
      invariant forall id <- ids[..k] :: QuietChild(cfg, byID, samples, level, id)
      invariant total == TotalPlayers(samples, ids[..k])
    {
      assert ids[k] in ids && ids[..k + 1] == ids[..k] + [ids[k]] && ids[..k + 1][..k] == ids[..k];
      if !QuietChild(cfg, byID, samples, level, ids[k]) {
        return false;
      }
      total := total + samples[ids[k]].players;
    }
    assert ids[..|ids|] == ids;
    if cfg.playerHandoff && !Limit(cfg.handoffMaxPlayers, total) {
      return false;
    }
    for i := 0 to |cells|
      invariant forall j, k | 0 <= j < i && 0 <= k < |ids| :: !Below(cells[j], ids[k], level)
    {
      for k := 0 to |ids|
        invariant forall l :: 0 <= l < k ==> !Below(cells[i], ids[l], level)
      {
        var below := IsBelow(cells[i], ids[k], level);
        if below {
          return false;
        }
      }
    }
    ok := true;
  }

  method IsBelow(c: Option<CellSpec>, id: string, level: int) returns (r: bool)
    ensures r <==> Below(c, id, level)
  {
    hide PathOf, TrimSpace;
    if c.None? {
      return false;
    }
    var cid := TrimSpace(c.value.id);
    var path := ParseCellPathID(cid);
    if path.Err? || |path.value| <= level {
      return false;
    }
    var child := ParseCellPathID(id);
    if child.Err? || |child.value| != level {
      return false;
    }
    r := IsDescendantPath(id, cid);
  }

  /** The group below `parent` is complete in the catalogue and quiet. */
  ghost predicate LowLoad(cfg: Config, cells: seq<Option<CellSpec>>, samples: map<string, LoadSample>, parent: CellSpec) {
    parent.bounds.Some? && Mergeable(parent.bounds.value, parent.level + 1, cells) &&
    forall kids | AreMatches(kids, parent.bounds.value, parent.level + 1, cells) ::
      QuietGroup(cfg, cells, ByID(cells), samples, parent.level + 1, [IDOf(kids[0]), IDOf(kids[1]), IDOf(kids[2]), IDOf(kids[3])])
  }

  /** Entries by trimmed id; later ones win. */
  function ByID(cells: seq<Option<CellSpec>>): map<string, CellSpec> {
    if cells == [] then map[]
    else
      var front, c := ByID(cells[..|cells| - 1]), cells[|cells| - 1];
      if c.Some? then front[TrimSpace(c.value.id) := c.value] else front
  }

  /** Exactly the listed ids have an entry, and it is the last one listed. */
  lemma {:induction false} LastListedCounts(cells: seq<Option<CellSpec>>, i: nat)
    requires i < |cells| && cells[i].Some?
    requires forall j :: i < j < |cells| && cells[j].Some? ==> TrimSpace(cells[j].value.id) != TrimSpace(cells[i].value.id)
    ensures TrimSpace(cells[i].value.id) in ByID(cells) && ByID(cells)[TrimSpace(cells[i].value.id)] == cells[i].value
  {
    hide TrimSpace;
    if i < |cells| - 1 {
      LastListedCounts(cells[..|cells| - 1], i);
    }
  }

  lemma {:induction false} OnlyListedCount(cells: seq<Option<CellSpec>>, id: string)
    requires id in ByID(cells)
    ensures exists i :: 0 <= i < |cells| && cells[i].Some? && TrimSpace(cells[i].value.id) == id
  {
    hide TrimSpace;
    var n := |cells| - 1;
    if !(cells[n].Some? && TrimSpace(cells[n].value.id) == id) {
      OnlyListedCount(cells[..n], id);
      var i :| 0 <= i < n && cells[..n][i].Some? && TrimSpace(cells[..n][i].value.id) == id;
      assert cells[i] == cells[..n][i];
    }
  }

  method IndexByID(cells: seq<Option<CellSpec>>) returns (byID: map<string, CellSpec>)
    ensures byID == ByID(cells)
  {
    hide TrimSpace;
    byID := map[];
    for i := 0 to |cells|
      invariant byID == ByID(cells[..i])
    {
      assert cells[..i + 1][..i] == cells[..i];
      if cells[i].Some? {
        byID := byID[TrimSpace(cells[i].value.id) := cells[i].value];
      }
    }
    assert cells[..|cells|] == cells;
  }

  /** Any two matches name the same ids. */
  lemma MatchesAgree(a: seq<CellSpec>, b: seq<CellSpec>, parent: Geometry.Bounds, level: int,
                     cells: seq<Option<CellSpec>>)
    requires AreMatches(a, parent, level, cells) && AreMatches(b, parent, level, cells)
    ensures |a| == |b| == 4 && forall q: Quad :: IDOf(a[q]) == IDOf(b[q])
  {
    hide IDOf, Geometry.SplitFour;
    forall q: Quad ensures IDOf(a[q]) == IDOf(b[q]) {
      var i :| 0 <= i < |cells| && cells[i] == Some(a[q]);
      var j :| 0 <= j < |cells| && cells[j] == Some(b[q]);
      assert Unambiguous(cells, level, Geometry.SplitFour(parent)[q]);
    }
  }

  method IsLowLoad(cfg: Config, cells: seq<Option<CellSpec>>, byID: map<string, CellSpec>,
                   samples: map<string, LoadSample>, parent: CellSpec) returns (low: bool)
    requires byID == ByID(cells)
    ensures low <==> LowLoad(cfg, cells, samples, parent)
  {
    hide Mergeable, AreMatches, IDOf, QuietGroup, ByID;
    var children := CatalogMergeChildren(Some(parent), cells);
    if children.Err? {
      return false;
    }
    var kids := children.value;
    AreFour(kids, parent.bounds.value, parent.level + 1, cells);
    low := MergeGroupLowLoad(cfg, cells, byID, samples, parent.level, [IDOf(kids[0]), IDOf(kids[1]), IDOf(kids[2]), IDOf(kids[3])]);
    forall other | AreMatches(other, parent.bounds.value, parent.level + 1, cells)
      ensures |other| == 4 && [IDOf(other[0]), IDOf(other[1]), IDOf(other[2]), IDOf(other[3])] == [IDOf(kids[0]), IDOf(kids[1]), IDOf(kids[2]), IDOf(kids[3])]
    {
      MatchesAgree(other, kids, parent.bounds.value, parent.level + 1, cells);
    }
  }

  lemma AreFour(kids: seq<CellSpec>, parent: Geometry.Bounds, level: int, cells: seq<Option<CellSpec>>)
    requires AreMatches(kids, parent, level, cells)
    ensures |kids| == 4
  {
  }

  class LoadPolicyRuntime {
    const cfg: Config
    var state: map<string, PolicyState>
    var mgState: map<string, PolicyState>

    constructor (cfg: Config)
      ensures this.cfg == cfg && state == map[] && mgState == map[]
    {
      this.cfg, state, mgState := cfg, map[], map[];
    }

    method Forget(cellID: string)
      modifies this`state
      ensures state == old(state) - {cellID}
    {
      state := state - {cellID};
    }

    /** One sample of one cell; `within` is 1 or more when all limits are met. */
    method Observe(cellID: string, now: int, within: real, reachable: bool, splitEnabled: bool, drainOk: bool) returns (action: Option<Action>)
      modifies this`state
      ensures var (st, fires) := Observed(Current(old(state), cellID), now, within < 1.0, cfg.minBreach, cfg.cooldown, false);
              state == old(state)[cellID := st] &&
              action == if fires then Some(ActionFor(cfg, reachable, splitEnabled, drainOk)) else None
    {
      var st := if cellID in state then state[cellID] else AT_REST;
      if within >= 1.0 {
        state := state[cellID := st.(since := None)];
        return None;
      }
      if st.since.None? {
        state := state[cellID := st.(since := Some(now))];
        return None;
      }
      if now - st.since.value < cfg.minBreach {
        state := state[cellID := st];
        return None;
      }
      if st.lastAction.Some? && now - st.lastAction.value < cfg.cooldown {
        state := state[cellID := st];
        return None;
      }
      var kind, outcome := LogOnly, Done;
      if cfg.autoSplitDrain && reachable {
        kind := SplitDrain;
        if !splitEnabled && !drainOk {
          outcome := Failed;
        }
      } else if !reachable {
        outcome := Skipped;
      }
      state := state[cellID := st.(lastAction := Some(now))];
      action := Some(Action(kind, outcome, kind == SplitDrain && outcome == Done));
    }

    /** One parent in one round. */
    method ObserveParent(parentID: string, now: int, low: bool) returns (starts: bool)
      modifies this`mgState
      ensures (mgState, starts) == MergeStep(cfg, old(mgState), parentID, now, low)
    {
      var st := if parentID in mgState then mgState[parentID] else AT_REST;
      if !low {
        mgState := mgState[parentID := st.(since := None)];
        return false;
      }
      if st.since.None? {
        mgState := mgState[parentID := st.(since := Some(now))];
        return false;
      }
      if now - st.since.value < cfg.lowLoadFor {
        mgState := mgState[parentID := st];
        return false;
      }
      if st.lastAction.Some? && now - st.lastAction.value < cfg.mergeCooldown {
        mgState := mgState[parentID := st];
        return false;
      }
      mgState := mgState[parentID := PolicyState(None, Some(now))];
      starts := true;
    }

    /** One round over the catalogue; parents no longer listed are forgotten. */
    method ObserveMergeCandidates(cells: seq<Option<CellSpec>>, samples: map<string, LoadSample>, now: int)
      returns (started: seq<string>)
      modifies this`mgState
      ensures !cfg.autoMerge ==> mgState == old(mgState) && started == []
      ensures cfg.autoMerge ==>
                var (all, starts) := MergeRound(cfg, old(mgState), cells, samples, now);
                started == starts && mgState == Kept(all, Parents(cells))
    {
      started := [];
      if !cfg.autoMerge {
        return;
      }
      hide *;
      var byID := IndexByID(cells);
      var seen: set<string> := {};
      NoParents(cells[..0]);
      RoundBegins(cfg, mgState, cells, samples, now);
      for i := 0 to |cells|
        invariant seen == Parents(cells[..i])
        invariant (mgState, started) == MergeRoundTo(cfg, old(mgState), cells, samples, now, i)
      {
        ParentsOneMore(cells, i);
        RoundGoesOn(cfg, old(mgState), cells, samples, now, i);
        var parentID := ParentID(cells[i]);
        if parentID.Some? {
          seen := seen + {parentID.value};
          var low := IsLowLoad(cfg, cells, byID, samples, cells[i].value);
          var starts := ObserveParent(parentID.value, now, low);
          if starts {
            started := started + [parentID.value];
          }
        }
      }
      assert cells[..|cells|] == cells;
      RoundEnds(cfg, old(mgState), cells, samples, now);
      mgState := Kept(mgState, seen);
    }
  }

  function Current(state: map<string, PolicyState>, id: string): PolicyState {
    if id in state then state[id] else AT_REST
  }

  /** The entries of the watched parents only. */
  function Kept(mg: map<string, PolicyState>, ids: set<string>): map<string, PolicyState> {
    map id <- mg | id in ids :: mg[id]
  }

  function MergeStep(cfg: Config, mg: map<string, PolicyState>, id: string, now: int,
                     low: bool): (map<string, PolicyState>, bool) {
    var (st, fires) := Observed(Current(mg, id), now, low, cfg.lowLoadFor, cfg.mergeCooldown, true);
    (mg[id := st], fires)
  }

  /** The id under which an entry is watched, if it is. */
  function ParentID(c: Option<CellSpec>): Option<string> {
    if c.Some? && c.value.bounds.Some? && TrimSpace(c.value.id) != "" then Some(TrimSpace(c.value.id)) else None
  }

  function Parents(cells: seq<Option<CellSpec>>): set<string> {
    set c <- cells | ParentID(c).Some? :: ParentID(c).value
  }

  lemma NoParents(cells: seq<Option<CellSpec>>)
    requires cells == []
    ensures Parents(cells) == {}
  {
  }

  lemma ParentsOneMore(cells: seq<Option<CellSpec>>, i: nat)
    requires i < |cells|
    ensures Parents(cells[..i + 1]) == Parents(cells[..i]) + (if ParentID(cells[i]).Some? then {ParentID(cells[i]).value} else {})
  {
    hide ParentID;
    assert cells[..i + 1] == cells[..i] + [cells[i]];
  }

  /** The entries in order, each one step of its parent's own automaton. */
  ghost function MergeRoundTo(cfg: Config, mg: map<string, PolicyState>, cells: seq<Option<CellSpec>>,
                             samples: map<string, LoadSample>, now: int, n: nat): (map<string, PolicyState>, seq<string>)
    requires n <= |cells|
  {
    if n == 0 then (mg, [])
    else
      var (m, starts) := MergeRoundTo(cfg, mg, cells, samples, now, n - 1);
      var id := ParentID(cells[n - 1]);
      if id.None? then (m, starts)
      else
        var (m', fires) := MergeStep(cfg, m, id.value, now, LowLoad(cfg, cells, samples, cells[n - 1].value));
        (m', if fires then starts + [id.value] else starts)
  }

  ghost function MergeRound(cfg: Config, mg: map<string, PolicyState>, cells: seq<Option<CellSpec>>,
                            samples: map<string, LoadSample>, now: int): (map<string, PolicyState>, seq<string>)
  {
    MergeRoundTo(cfg, mg, cells, samples, now, |cells|)
  }

  lemma RoundBegins(cfg: Config, mg: map<string, PolicyState>, cells: seq<Option<CellSpec>>,
                    samples: map<string, LoadSample>, now: int)
    ensures MergeRoundTo(cfg, mg, cells, samples, now, 0) == (mg, [])
  {
  }

  lemma RoundEnds(cfg: Config, mg: map<string, PolicyState>, cells: seq<Option<CellSpec>>,
                  samples: map<string, LoadSample>, now: int)
    ensures MergeRound(cfg, mg, cells, samples, now) == MergeRoundTo(cfg, mg, cells, samples, now, |cells|)
  {
  }

  lemma RoundGoesOn(cfg: Config, mg: map<string, PolicyState>, cells: seq<Option<CellSpec>>,
                    samples: map<string, LoadSample>, now: int, i: nat)
    requires i < |cells|
    ensures ParentID(cells[i]).Some? ==> cells[i].Some?
    ensures var (m, starts) := MergeRoundTo(cfg, mg, cells, samples, now, i);
            MergeRoundTo(cfg, mg, cells, samples, now, i + 1) ==
              if ParentID(cells[i]).None? then (m, starts)
              else
                var (m', fires) := MergeStep(cfg, m, ParentID(cells[i]).value, now, LowLoad(cfg, cells, samples, cells[i].value));
                (m', if fires then starts + [ParentID(cells[i]).value] else starts)
  {
    hide MergeStep, LowLoad, TrimSpace;
  }

  /** A parent listed once takes exactly one step of the automaton in a round, whatever else is listed. */
  lemma OneStepPerRound(cfg: Config, mg: map<string, PolicyState>, cells: seq<Option<CellSpec>>,
                        samples: map<string, LoadSample>, now: int, n: nat, at: nat, id: string)
    requires n <= |cells| && at < |cells| && ParentID(cells[at]) == Some(id)
    requires forall i :: 0 <= i < |cells| && i != at ==> ParentID(cells[i]) != Some(id)
    ensures var (m, starts) := MergeRoundTo(cfg, mg, cells, samples, now, n);
            var (st, fires) := Observed(Current(mg, id), now, LowLoad(cfg, cells, samples, cells[at].value), cfg.lowLoadFor, cfg.mergeCooldown, true);
            Current(m, id) == (if at < n then st else Current(mg, id)) && (id in starts <==> at < n && fires)
  {
    hide ParentID, LowLoad, Observed;
    if n > 0 {
      OneStepPerRound(cfg, mg, cells, samples, now, n - 1, at, id);
    }
  }

  // ---------------------------------------------------------------- many rounds, seen from one parent

  /** One round's catalogue listing, samples and time. */
  datatype Round = Round(cells: seq<Option<CellSpec>>, samples: map<string, LoadSample>, now: int)

  ghost function AfterRounds(cfg: Config, rounds: seq<Round>, n: nat): map<string, PolicyState>
    requires n <= |rounds|
  {
    if n == 0 then map[]
    else
      var r := rounds[n - 1];
      Kept(MergeRound(cfg, AfterRounds(cfg, rounds, n - 1), r.cells, r.samples, r.now).0, Parents(r.cells))
  }

  /** The watched parents are the listed cells with bounds and a name. */
  lemma WatchedExactly(cells: seq<Option<CellSpec>>, id: string)
    ensures id in Parents(cells) <==>
              id != "" && exists i :: 0 <= i < |cells| && cells[i].Some? && cells[i].value.bounds.Some? && TrimSpace(cells[i].value.id) == id
  {
    hide TrimSpace;
    if i :| 0 <= i < |cells| && cells[i].Some? && cells[i].value.bounds.Some? && TrimSpace(cells[i].value.id) == id && id != "" {
      assert cells[i] in cells && ParentID(cells[i]) == Some(id);
    }
  }

  /** A parent missing from one listing starts from rest when it is listed again. */
  lemma UnlistedForgotten(cfg: Config, rounds: seq<Round>, n: nat, id: string)
    requires n < |rounds| && id !in Parents(rounds[n].cells)
    ensures Current(AfterRounds(cfg, rounds, n + 1), id) == PolicyState(None, None)
  {
    hide Parents, MergeRoundTo;
  }

  ghost predicate Starts(cfg: Config, rounds: seq<Round>, n: nat, id: string)
    requires n < |rounds|
  {
    id in MergeRound(cfg, AfterRounds(cfg, rounds, n), rounds[n].cells, rounds[n].samples, rounds[n].now).1
  }

  /** The parent is listed exactly once, as entry `at`. */
  predicate ListedOnce(cells: seq<Option<CellSpec>>, id: string, at: nat) {
    at < |cells| && ParentID(cells[at]) == Some(id) && forall i :: 0 <= i < |cells| && i != at ==> ParentID(cells[i]) != Some(id)
  }

  function MergeRule(cfg: Config): Rule {
    Rule(cfg.lowLoadFor, cfg.mergeCooldown, true)
  }

  /** What the parent's own history looks like. */
  ghost function History(cfg: Config, rounds: seq<Round>, at: seq<nat>): seq<Sample>
    requires |at| == |rounds| && forall i :: 0 <= i < |rounds| ==> at[i] < |rounds[i].cells| && rounds[i].cells[at[i]].Some?
  {
    seq(|rounds|, i requires 0 <= i < |rounds| =>
      Sample(rounds[i].now, LowLoad(cfg, rounds[i].cells, rounds[i].samples, rounds[i].cells[at[i]].value)))
  }

  ghost predicate StaysListed(rounds: seq<Round>, id: string, at: seq<nat>) {
    |at| == |rounds| && forall i :: 0 <= i < |rounds| ==> ListedOnce(rounds[i].cells, id, at[i]) && rounds[i].cells[at[i]].Some?
  }

  /** As long as a parent stays in the catalogue, its merges start exactly by the
      history rule of its own low load, whatever the other parents do. */
  lemma {:induction false} ParentFollowsRule(cfg: Config, rounds: seq<Round>, id: string, at: seq<nat>, n: nat)
    requires n <= |rounds| && StaysListed(rounds, id, at)
    ensures Current(AfterRounds(cfg, rounds, n), id) == StateAfter(History(cfg, rounds, at), n, MergeRule(cfg))
    ensures n < |rounds| ==> (Starts(cfg, rounds, n, id) <==> Fires(History(cfg, rounds, at), n, MergeRule(cfg)))
    decreases n
  {
    hide LowLoad, ParentID, Observed, MergeRoundTo, Kept, Parents;
    var h := History(cfg, rounds, at);
    if n > 0 {
      ParentFollowsRule(cfg, rounds, id, at, n - 1);
      var r := rounds[n - 1];
      OneStepPerRound(cfg, AfterRounds(cfg, rounds, n - 1), r.cells, r.samples, r.now, |r.cells|, at[n - 1], id);
      ListedIsKept(MergeRound(cfg, AfterRounds(cfg, rounds, n - 1), r.cells, r.samples, r.now).0, r.cells, at[n - 1], id);
    }
    if n < |rounds| {
      var r := rounds[n];
      OneStepPerRound(cfg, AfterRounds(cfg, rounds, n), r.cells, r.samples, r.now, |r.cells|, at[n], id);
    }
  }

  lemma ListedIsKept(mg: map<string, PolicyState>, cells: seq<Option<CellSpec>>, at: nat, id: string)
    requires at < |cells| && ParentID(cells[at]) == Some(id)
    ensures Current(Kept(mg, Parents(cells)), id) == Current(mg, id)
  {
    hide ParentID;
    assert cells[at] in cells;
  }

  /** Hence two merge starts of such a parent are at least both the window and the cooldown apart. */
  lemma ParentStartsSpaced(cfg: Config, rounds: seq<Round>, id: string, at: seq<nat>, m: nat, n: nat)
    requires m < n < |rounds| && StaysListed(rounds, id, at)
    requires forall i, j :: 0 <= i <= j < |rounds| ==> rounds[i].now <= rounds[j].now
    requires Starts(cfg, rounds, m, id) && Starts(cfg, rounds, n, id)
    ensures rounds[n].now - rounds[m].now >= cfg.lowLoadFor && rounds[n].now - rounds[m].now >= cfg.mergeCooldown
  {
    hide LowLoad, Fires, ParentID, Starts;
    ParentFollowsRule(cfg, rounds, id, at, m);
    ParentFollowsRule(cfg, rounds, id, at, n);
    var h := History(cfg, rounds, at);
    assert InOrder(h);
    MergeStartsSpaced(h, m, n, MergeRule(cfg));
  }
}
